/** Draining under the matrix: the planner is not monotone, and one pass over the queue may leave
    a request waiting that a second pass would start. */
module MatrixDrain {
  import opened Names
  import opened ProcessState
  import opened Scheduler
  import opened SchedulerRuns
  import opened SchedulerFixpoint
  import opened MatrixDsl
  import opened MatrixProgram
  import opened MatrixSolve
  import opened MatrixPlanner
  import BitMasks

  // ---- Four sets of models ----

  const TEAMS := [["x", "c"], ["x", "b", "y"], ["y", "b", "c"], ["b", "c", "d"]]
  const TEAM_NAMES := ["s1", "s2", "s3", "s4"]
  const TEXTS := ["x & c", "x & b & y", "y & b & c", "b & c & d"]
  const BITS := map["x" := 0, "c" := 1, "b" := 2, "y" := 3, "d" := 4]
  const PRICES: Costs := map["c" := 2, "y" := 5]

  function All(models: seq<string>): Expr {
    And(seq(|models|, i requires 0 <= i < |models| => Leaf(models[i])))
  }

  function Numbers(models: seq<string>): BitMasks.Word {
    set m | m in models && m in BITS :: BITS[m]
  }

  function Team(i: nat): CompiledSet
    requires i < 4
  {
    CompiledSet(TEAM_NAMES[i], TEXTS[i], All(TEAMS[i]), [Numbers(TEAMS[i])])
  }

  const TEAM_ROOTS := map["s1" := All(TEAMS[0]), "s2" := All(TEAMS[1]), "s3" := All(TEAMS[2]), "s4" := All(TEAMS[3])]

  const LEAGUE := Program([Team(0), Team(1), Team(2), Team(3)], TEAM_ROOTS, BITS, 1)

  lemma {:induction false} NoReferences(cs: seq<Expr>)
    requires forall c | c in cs :: c.Leaf?
    ensures RefLists(cs) == []
  {
    if cs != [] {
      NoReferences(cs[1..]);
    }
  }

  lemma AllRefersToNothing(models: seq<string>)
    ensures RefList(All(models)) == []
  {
    NoReferences(All(models).children);
  }

  lemma LeagueOrdered()
    ensures LEAGUE.Linkage().order == TEAM_NAMES
    ensures Ordered(LEAGUE.Linkage())
    ensures forall i | 0 <= i < 4 :: Linked(LEAGUE.Linkage(), All(TEAMS[i]))
  {
    forall i | 0 <= i < 4
      ensures RefList(All(TEAMS[i])) == []
    {
      AllRefersToNothing(TEAMS[i]);
    }
    assert Elems(TEAM_NAMES) == TEAM_ROOTS.Keys;
  }

  lemma {:induction false} AllMentions(env: Env, models: seq<string>, k: nat)
    requires Ordered(env) && Linked(env, All(models)) && k <= |models|
    ensures MentionsUpTo(env, All(models), k) == Elems(models[..k])
  {
    if k > 0 {
      AllMentions(env, models, k - 1);
      assert models[..k] == models[..k - 1] + [models[k - 1]];
      ElemsAppend(models[..k - 1], [models[k - 1]]);
      assert Elems([models[k - 1]]) == {models[k - 1]};
      assert Mentions(env, All(models).children[k - 1]) == {models[k - 1]};
    }
  }

  lemma CrossOne(a: set<string>, b: set<string>)
    ensures Cross({a}, {b}) == {a + b}
  {
    assert a in {a} && b in {b};
  }

  lemma {:induction false} AllExpands(env: Env, models: seq<string>, k: nat)
    requires Ordered(env) && Linked(env, All(models)) && k <= |models|
    ensures ExpandAnd(env, All(models), k) == {Elems(models[..k])}
  {
    if k == 0 {
      assert Elems(models[..0]) == {};
    } else {
      AllExpands(env, models, k - 1);
      assert models[..k] == models[..k - 1] + [models[k - 1]];
      ElemsAppend(models[..k - 1], [models[k - 1]]);
      assert Elems([models[k - 1]]) == {models[k - 1]};
      var e := All(models);
      RankOfChild(env, e, k - 1);
      assert Expand(env, e.children[k - 1]) == {{models[k - 1]}};
      CrossOne(Elems(models[..k - 1]), {models[k - 1]});
      assert ExpandAnd(env, e, k) == Cross(ExpandAnd(env, e, k - 1), Expand(env, e.children[k - 1]));
    }
  }

  lemma BitsRegistered()
    ensures Registry(BITS) && |BITS| == 5
  {
    var m1 := map["x" := 0];
    RegistryGrows(map[], "x");
    RegistryGrows(m1, "c");
    RegistryGrows(m1["c" := 1], "b");
    RegistryGrows(m1["c" := 1]["b" := 2], "y");
    RegistryGrows(m1["c" := 1]["b" := 2]["y" := 3], "d");
    assert BITS == m1["c" := 1]["b" := 2]["y" := 3]["d" := 4];
  }

  lemma TeamSupported(i: nat)
    requires i < 4
    ensures Supports(BITS, [Numbers(TEAMS[i])], Elems(TEAMS[i]))
  {
    assert forall m | m in TEAMS[i] :: m in BITS;
    forall m | m in BITS
      ensures BITS[m] in BitMasks.Bits([Numbers(TEAMS[i])]) <==> m in Elems(TEAMS[i])
    {
      assert BITS[m] / BitMasks.WORD_BITS == 0 && BITS[m] % BitMasks.WORD_BITS == BITS[m];
    }
  }

  lemma LeagueIsGood()
    ensures LEAGUE.Good()
  {
    LeagueOrdered();
    BitsRegistered();
    WordsForFive();
    forall i | 0 <= i < 4
      ensures LEAGUE.GoodSet(Team(i))
    {
      TeamMentions(i);
      TeamSupported(i);
      TeamIsGood(LEAGUE.Linkage(), i);
    }
    assert forall i | 0 <= i < 4 :: LEAGUE.sets[i] == Team(i);
  }

  lemma WordsForFive()
    ensures BitMasks.WordsFor(5) == 1
  {
  }

  lemma TeamMentions(i: nat)
    requires i < 4 && Ordered(LEAGUE.Linkage()) && Linked(LEAGUE.Linkage(), All(TEAMS[i]))
    ensures Mentions(LEAGUE.Linkage(), All(TEAMS[i])) == Elems(TEAMS[i])
  {
    AllMentions(LEAGUE.Linkage(), TEAMS[i], |TEAMS[i]|);
    assert TEAMS[i][..|TEAMS[i]|] == TEAMS[i];
  }

  lemma TeamIsGood(env: Env, i: nat)
    requires i < 4 && env == LEAGUE.Linkage() && Ordered(env) && Linked(env, All(TEAMS[i]))
    requires Mentions(env, All(TEAMS[i])) == Elems(TEAMS[i])
    requires Supports(BITS, [Numbers(TEAMS[i])], Elems(TEAMS[i]))
    ensures LEAGUE.GoodSet(Team(i))
  {
    assert TEAM_NAMES[i] in TEAM_ROOTS && TEAM_ROOTS[TEAM_NAMES[i]] == All(TEAMS[i]);
  }

  lemma FamilyOfAll(p: Program, i: nat, models: seq<string>)
    requires p.Good() && i < |p.sets| && p.sets[i].root == All(models)
    ensures Families(p)[i] == {Elems(models)}
  {
    assert p.GoodSet(p.sets[i]);
    AllExpands(p.Linkage(), models, |models|);
    assert models[..|models|] == models;
  }

  lemma LeagueRoot(i: nat)
    requires i < 4
    ensures |LEAGUE.sets| == 4 && LEAGUE.sets[i].root == All(TEAMS[i])
  {
  }

  lemma LeagueFamilies(i: nat)
    requires LEAGUE.Good() && i < 4
    ensures Families(LEAGUE)[i] == {Elems(TEAMS[i])}
  {
    LeagueRoot(i);
    FamilyOfAll(LEAGUE, i, TEAMS[i]);
  }

  // ---- What the planner evicts ----

  /** Of the sets that hold the target, team k keeps the cheapest. */
  ghost predicate Wins(target: string, running: seq<string>, k: nat) {
    && k < 4 && target in TEAMS[k]
    && forall i | 0 <= i < 4 && i != k && target in TEAMS[i] ::
         Cost(PRICES, running, Elems(TEAMS[k])) < Cost(PRICES, running, Elems(TEAMS[i]))
  }

  /** The planner of these four sets. */
  ghost predicate PlansTeams(p: Program) {
    && p.Good() && |p.sets| == 4
    && forall i | 0 <= i < 4 :: Families(p)[i] == {Elems(TEAMS[i])}
  }

  lemma LeaguePlansTeams()
    ensures PlansTeams(LEAGUE)
  {
    LeagueIsGood();
    forall i | 0 <= i < 4
      ensures Families(LEAGUE)[i] == {Elems(TEAMS[i])}
    {
      LeagueFamilies(i);
    }
  }

  lemma PricesOk()
    ensures NonNegative(PRICES)
  {
  }

  lemma WinnerStays(p: Program, target: string, running: seq<string>, k: nat)
    requires PlansTeams(p) && target !in running && Wins(target, running, k)
    ensures MatrixPlan(p, PRICES)(target, running) == Outside(running, Elems(TEAMS[k]))
  {
    PricesOk();
    OnlyWinner(Families(p), target, running, k);
    OnlyCheapestDecides(p, PRICES, target, running, k, Elems(TEAMS[k]));
  }

  lemma OnlyCheapestDecides(p: Program, costs: Costs, target: string, running: seq<string>, k: nat, s: set<string>)
    requires p.Good() && NonNegative(costs) && target !in running && Choice(Families(p), k, target, s)
    requires forall j: nat, x | Cheapest(Families(p), target, running, costs, j, x) :: x == s
    ensures MatrixPlan(p, costs)(target, running) == Outside(running, s)
  {
    SolveIsOptimal(p, target, running, costs);
    var d := Solution(p, target, running, costs);
    var j, x :| Cheapest(Families(p), target, running, costs, j, x) && Takes(p.sets, running, costs, d, j, x);
  }

  lemma OnlyWinner(families: seq<set<set<string>>>, target: string, running: seq<string>, k: nat)
    requires |families| == 4 && forall i | 0 <= i < 4 :: families[i] == {Elems(TEAMS[i])}
    requires Wins(target, running, k)
    ensures Choice(families, k, target, Elems(TEAMS[k]))
    ensures forall j: nat, s | Cheapest(families, target, running, PRICES, j, s) :: s == Elems(TEAMS[k])
  {
    assert forall i | 0 <= i < 4 :: target in Elems(TEAMS[i]) <==> target in TEAMS[i];
    assert Choice(families, k, target, Elems(TEAMS[k]));
  }

  function Pay(m: string, kept: set<string>): int {
    if m in kept then 0 else EvictionCost(PRICES, m)
  }

  function Left(m: string, kept: set<string>): seq<string> {
    if m in kept then [] else [m]
  }

  lemma Two(a: string, b: string, kept: set<string>)
    ensures Cost(PRICES, [a, b], kept) == Pay(a, kept) + Pay(b, kept)
    ensures Outside([a, b], kept) == Left(a, kept) + Left(b, kept)
  {
    assert [a, b][..1] == [a] && [a][..0] == [];
    assert Cost(PRICES, [], kept) == 0;
    assert Cost(PRICES, [a], kept) == Pay(a, kept);
    assert Outside([a], kept) == Left(a, kept);
  }

  lemma Three(a: string, b: string, c: string, kept: set<string>)
    ensures Cost(PRICES, [a, b, c], kept) == Pay(a, kept) + Pay(b, kept) + Pay(c, kept)
    ensures Outside([a, b, c], kept) == Left(a, kept) + Left(b, kept) + Left(c, kept)
  {
    Two(a, b, kept);
    assert [a, b, c][..2] == [a, b];
  }

  /** The planner evicts nothing for a running model, and else what the winning team leaves out. */
  ghost predicate Follows(plan: Planner) {
    && (forall target, running | target in running :: plan(target, running) == [])
    && (forall target, running, k: nat | target !in running && Wins(target, running, k) ::
          plan(target, running) == Outside(running, Elems(TEAMS[k])))
  }

  lemma LeagueFollows()
    ensures LEAGUE.Good() && Follows(MatrixPlan(LEAGUE, PRICES))
  {
    LeaguePlansTeams();
    TeamsFollow(LEAGUE);
  }

  lemma TeamsFollow(p: Program)
    requires PlansTeams(p)
    ensures Follows(MatrixPlan(p, PRICES))
  {
    forall target, running, k: nat | target !in running && Wins(target, running, k)
      ensures MatrixPlan(p, PRICES)(target, running) == Outside(running, Elems(TEAMS[k]))
    {
      WinnerStays(p, target, running, k);
    }
  }

  lemma XBesideBCD()
    ensures Wins("x", ["b", "c", "d"], 0) && Outside(["b", "c", "d"], Elems(TEAMS[0])) == ["b", "d"]
  {
    Three("b", "c", "d", Elems(TEAMS[0]));
    Three("b", "c", "d", Elems(TEAMS[1]));
  }

  lemma YBesideBCD()
    ensures Wins("y", ["b", "c", "d"], 2) && Outside(["b", "c", "d"], Elems(TEAMS[2])) == ["d"]
  {
    Three("b", "c", "d", Elems(TEAMS[2]));
    Three("b", "c", "d", Elems(TEAMS[1]));
  }

  lemma XBesideBC()
    ensures Wins("x", ["b", "c"], 0) && Outside(["b", "c"], Elems(TEAMS[0])) == ["b"]
  {
    Two("b", "c", Elems(TEAMS[0]));
    Two("b", "c", Elems(TEAMS[1]));
  }

  lemma YBesideBC()
    ensures Wins("y", ["b", "c"], 2) && Outside(["b", "c"], Elems(TEAMS[2])) == []
  {
    Two("b", "c", Elems(TEAMS[2]));
    Two("b", "c", Elems(TEAMS[1]));
  }

  lemma XBesideBCY()
    ensures Wins("x", ["b", "c", "y"], 1) && Outside(["b", "c", "y"], Elems(TEAMS[1])) == ["c"]
  {
    Three("b", "c", "y", Elems(TEAMS[1]));
    Three("b", "c", "y", Elems(TEAMS[0]));
  }

  // ---- A run whose last drain leaves work ----

  const BCD := ["b", "c", "d"]
  const BC := ["b", "c"]
  const BCY := ["b", "c", "y"]

  /** All that the run asks of the planner. */
  ghost predicate PlansSo(plan: Planner) {
    && plan("d", BCD) == [] && plan("b", BCD) == []
    && plan("x", BCD) == ["b", "d"] && plan("y", BCD) == ["d"]
    && plan("x", BC) == ["b"] && plan("y", BC) == []
    && plan("x", BCY) == ["c"]
  }

  lemma FollowerPlansSo(plan: Planner)
    requires Follows(plan)
    ensures PlansSo(plan)
  {
    XBesideBCD();
    YBesideBCD();
    XBesideBC();
    YBesideBC();
    XBesideBCY();
  }

  lemma NotMonotone(plan: Planner)
    requires PlansSo(plan)
    ensures !Monotone(plan)
  {
    assert Elems(BC) <= Elems(BCY);
    assert "b" in Elems(plan("x", BC)) && "b" !in Elems(plan("x", BCY));
  }

  /** More running models can mean that others are evicted. */
  lemma MatrixIsNotMonotone()
    ensures LEAGUE.Good() && NonNegative(PRICES) && !Monotone(MatrixPlan(LEAGUE, PRICES))
  {
    LeagueFollows();
    PricesOk();
    FollowerPlansSo(MatrixPlan(LEAGUE, PRICES));
    NotMonotone(MatrixPlan(LEAGUE, PRICES));
  }

  lemma Listed(xs: seq<string>)
    requires xs in {BC, BCD, BCY}
    ensures Listing(Elems(xs)) == xs
  {
    assert Le("b", "c") && Le("b", "d") && Le("c", "d") && Le("b", "y") && Le("c", "y");
    ListsUnique(Listing(Elems(xs)), xs, Elems(xs));
  }

  /** Starting y spares b: before, x would have stopped it; afterwards x stops c instead. */
  lemma StarterSpares(plan: Planner)
    requires PlansSo(plan)
    ensures !SparesOne(plan, "x", "y", Elems(BC), "b")
  {
    Listed(BC);
    Listed(BCY);
    assert Elems(BC) + {"y"} == Elems(BCY);
    assert "b" in plan("x", BC);
  }

  /** The matrix planner is not one of those under which every drain is final. */
  lemma MatrixSparesSome()
    ensures LEAGUE.Good() && NonNegative(PRICES) && !Spares(MatrixPlan(LEAGUE, PRICES))
  {
    LeagueFollows();
    PricesOk();
    FollowerPlansSo(MatrixPlan(LEAGUE, PRICES));
    StarterSpares(MatrixPlan(LEAGUE, PRICES));
  }

  function Sees(state: ProcState, live: seq<string>): Obs {
    Obs(true, state, Elems(live), true)
  }

  ghost predicate Plain(p: Params) {
    p.limits == map[] && p.priority == map[] && PlansSo(p.plan)
  }

  /** d serves one request and b another. */
  const BOTH_SERVE := Sched(map[], map["d" := 1, "b" := 1], map["d" := 1, "b" := 1], [],
                            map[0 := Serving("d"), 1 := Serving("b")], 2)

  const FIRST := Request(Req(0, "d"), true, Sees(Ready, BCD))
  const SECOND := Request(Req(1, "b"), true, Sees(Ready, BCD))
  const THIRD := Request(Req(2, "x"), true, Sees(Stopped, BCD))
  const FOURTH := Request(Req(3, "y"), true, Sees(Stopped, BCD))

  lemma Beside(active: map<string, Swap>, live: seq<string>, m: string, xs: seq<string>)
    requires xs in {BC, BCD, BCY} && Elems(live) + (active.Keys - {m}) == Elems(xs)
    ensures RunningSet(active, Elems(live), m) == xs
  {
    Listed(xs);
  }

  /** A request for a running model that stops nobody is served. */
  lemma AskServes(p: Params, s: Sched, r: Req, xs: seq<string>)
    requires p.limits == map[] && s.active == map[] && xs in {BC, BCD, BCY} && p.plan(r.model, xs) == []
    requires Get(s.reserved, r.model) < 10
    ensures Step(p, s, Request(r, true, Sees(Ready, xs))) ==
            s.(seen := r.id + 1, reserved := Up(s.reserved, r.model), inFlight := Up(s.inFlight, r.model),
               place := s.place[r.id := Serving(r.model)])
  {
    Beside(s.active, xs, r.model, xs);
  }

  /** A request whose model would stop a busy one goes to the end of the queue. */
  lemma AskWaits(p: Params, s: Sched, r: Req, xs: seq<string>, x: string)
    requires p.limits == map[] && p.priority == map[] && s.active == map[] && xs in {BC, BCD, BCY}
    requires x in p.plan(r.model, xs) && Get(s.inFlight, x) > 0 && Get(s.reserved, r.model) < 10
    ensures Step(p, s, Request(r, true, Sees(Stopped, xs))) ==
            s.(seen := r.id + 1, reserved := Up(s.reserved, r.model), queued := s.queued + [r],
               place := s.place[r.id := Pending])
  {
    Beside(s.active, xs, r.model, xs);
    assert Decide(p, s.(seen := r.id + 1, reserved := Up(s.reserved, r.model)), r.model, Sees(Stopped, xs)) == Wait;
    assert QueuePlace(p, s.queued, r.model) == |s.queued|;
    assert s.queued[..|s.queued|] + [r] + s.queued[|s.queued|..] == s.queued + [r];
  }

  lemma TwoServe(p: Params)
    requires Plain(p)
    ensures Step(p, Step(p, NEW, FIRST), SECOND) == BOTH_SERVE
    ensures Step(p, NEW, FIRST).seen == 1
  {
    AskServes(p, NEW, Req(0, "d"), BCD);
    AskServes(p, Step(p, NEW, FIRST), Req(1, "b"), BCD);
  }

  const X := Req(2, "x")
  const Y := Req(3, "y")

  /** x and y are queued: both would stop d, which is busy. */
  const X_QUEUED := BOTH_SERVE.(queued := [X], reserved := map["d" := 1, "b" := 1, "x" := 1], seen := 3,
                                place := map[0 := Serving("d"), 1 := Serving("b"), 2 := Pending])
  const BOTH_QUEUED := X_QUEUED.(queued := [X, Y], reserved := map["d" := 1, "b" := 1, "x" := 1, "y" := 1], seen := 4,
                                 place := map[0 := Serving("d"), 1 := Serving("b"), 2 := Pending, 3 := Pending])

  lemma BothWait(p: Params)
    requires Plain(p)
    ensures Step(p, BOTH_SERVE, THIRD) == X_QUEUED && Step(p, X_QUEUED, FOURTH) == BOTH_QUEUED
  {
    XAsks(p);
    YAsks(p);
  }

  lemma XAsks(p: Params)
    requires Plain(p)
    ensures Step(p, BOTH_SERVE, THIRD) == X_QUEUED
  {
    AskWaits(p, BOTH_SERVE, X, BCD, "d");
  }

  lemma YAsks(p: Params)
    requires Plain(p)
    ensures Step(p, X_QUEUED, FOURTH) == BOTH_QUEUED
  {
    AskWaits(p, X_QUEUED, Y, BCD, "d");
  }

  /** The process of d ended, and with it the request that it served. */
  const D_GONE := Served(BOTH_QUEUED, "d")
  const Y_STARTED := D_GONE.(queued := [X], active := map["y" := Swap("y", [], [Y])],
                             place := D_GONE.place[3 := Waiting("y")])
  const CALM := World({"x", "y"}, map["x" := Stopped, "y" := Stopped], {"b", "c"})

  /** In a drain, a request whose model would stop a busy one stays in the queue. */
  lemma TurnWaits(p: Params, s: Sched, r: Req, live: seq<string>, xs: seq<string>, x: string)
    requires r.model !in s.active && xs in {BC, BCD, BCY} && Elems(live) + (s.active.Keys - {r.model}) == Elems(xs)
    requires x in p.plan(r.model, xs) && Get(s.inFlight, x) > 0
    ensures DrainOne(p, s, r, Sees(Stopped, live)) == s.(queued := s.queued + [r])
  {
    Beside(s.active, live, r.model, xs);
  }

  /** In a drain, a request whose model stops nobody in the way of others starts its swap. */
  lemma TurnStarts(p: Params, s: Sched, r: Req, live: seq<string>, xs: seq<string>)
    requires r.model !in s.active && xs in {BC, BCD, BCY} && Elems(live) + (s.active.Keys - {r.model}) == Elems(xs)
    requires !Collides(r.model, p.plan(r.model, xs), s.active) && !Busy(p.plan(r.model, xs), s.inFlight)
    ensures DrainOne(p, s, r, Sees(Stopped, live)) == Start(s, r, p.plan(r.model, xs))
  {
    Beside(s.active, live, r.model, xs);
  }

  lemma DrainOfTwo(p: Params, s: Sched, a: Req, b: Req, o: Obs, q: Obs)
    ensures Drain(p, s, [a, b], [o, q], 2) == DrainOne(p, DrainOne(p, s.(queued := []), a, o), b, q)
  {
    assert Drain(p, s, [a, b], [o, q], 1) == DrainOne(p, s.(queued := []), a, o);
  }

  lemma XWaitsYStarts(p: Params, s: Sched)
    requires Plain(p) && s.active == map[] && s.queued == [X, Y] && Get(s.inFlight, "b") > 0
    ensures DrainQueue(p, s, [Sees(Stopped, BC), Sees(Stopped, BC)]) == Start(s.(queued := [X]), Y, [])
  {
    DrainOfTwo(p, s, X, Y, Sees(Stopped, BC), Sees(Stopped, BC));
    assert s.active.Keys - {"x"} == {} && s.active.Keys - {"y"} == {};
    TurnWaits(p, s.(queued := []), X, BC, BC, "b");
    TurnStarts(p, s.(queued := [X]), Y, BC, BC);
  }

  lemma YStarts(p: Params)
    requires Plain(p)
    ensures DrainQueue(p, D_GONE, [Sees(Stopped, BC), Sees(Stopped, BC)]) == Y_STARTED
  {
    XWaitsYStarts(p, D_GONE);
  }

  lemma XStarts(p: Params)
    requires Plain(p)
    ensures "x" in DrainQueue(p, Y_STARTED, [Sees(Stopped, BC)]).active
  {
    var s := Y_STARTED.(queued := []);
    assert s.active.Keys - {"x"} == {"y"} && Elems(BC) + {"y"} == Elems(BCY);
    assert !Collides("x", ["c"], s.active) && !Busy(["c"], s.inFlight);
    TurnStarts(p, s, X, BC, BCY);
    assert Drain(p, Y_STARTED, [X], [Sees(Stopped, BC)], 0) == s;
  }

  lemma OneMoreEvent(p: Params, events: seq<Event>, e: Event)
    ensures Run(p, NEW, events + [e]) == Step(p, Run(p, NEW, events), e)
    ensures RunEnabled(p, NEW, events) && Enabled(Run(p, NEW, events), e) ==> RunEnabled(p, NEW, events + [e])
  {
    assert (events + [e])[..|events|] == events;
  }

  lemma RunQueuesBoth(p: Params) returns (events: seq<Event>)
    requires Plain(p)
    ensures RunEnabled(p, NEW, events) && Run(p, NEW, events) == BOTH_QUEUED
  {
    TwoServe(p);
    BothWait(p);
    OneMoreEvent(p, [], FIRST);
    var one := [] + [FIRST];
    OneMoreEvent(p, one, SECOND);
    OneMoreEvent(p, one + [SECOND], THIRD);
    OneMoreEvent(p, one + [SECOND] + [THIRD], FOURTH);
    events := one + [SECOND] + [THIRD] + [FOURTH];
  }

  lemma DrainLeavesX(p: Params)
    requires Plain(p)
    ensures LeavesWork(p, CALM, D_GONE, [Sees(Stopped, BC), Sees(Stopped, BC)], [Sees(Stopped, BC)])
  {
    YStarts(p);
    XStarts(p);
    assert Elems(BC) == {"b", "c"};
    assert "x" !in Y_STARTED.active;
  }

  /** After these events the end of d's request drains the queue, and leaves work. */
  ghost predicate EndsWithWork(p: Params, events: seq<Event>, obs: seq<Obs>, again: seq<Obs>) {
    var s := Run(p, NEW, events);
    && RunEnabled(p, NEW, events) && Enabled(s, ServeDone("d", obs))
    && Step(p, s, ServeDone("d", obs)) == DrainQueue(p, Served(s, "d"), obs)
    && LeavesWork(p, CALM, Served(s, "d"), obs, again)
  }

  lemma SomeRunEndsWithWork(p: Params) returns (events: seq<Event>, obs: seq<Obs>, again: seq<Obs>)
    requires Plain(p)
    ensures EndsWithWork(p, events, obs, again)
  {
    events := RunQueuesBoth(p);
    obs := [Sees(Stopped, BC), Sees(Stopped, BC)];
    again := [Sees(Stopped, BC)];
    DrainLeavesX(p);
  }

  /** Under the matrix a drain need not be final, while nothing changes outside. x has to wait
      because its cheapest set would stop b, which is busy; then y starts, and beside y another
      set is cheapest for x, which stops c only. A second pass would start x; the scheduler makes
      none until the next event. */
  lemma MatrixDrainLeavesWork() returns (p: Params, events: seq<Event>, obs: seq<Obs>, again: seq<Obs>)
    ensures LEAGUE.Good() && NonNegative(PRICES) && p.plan == MatrixPlan(LEAGUE, PRICES)
    ensures EndsWithWork(p, events, obs, again)
  {
    PricesOk();
    p := LeagueParams();
    events, obs, again := SomeRunEndsWithWork(p);
  }

  lemma LeagueParams() returns (p: Params)
    ensures LEAGUE.Good() && Plain(p) && p.plan == MatrixPlan(LEAGUE, PRICES)
  {
    LeagueFollows();
    FollowerPlansSo(MatrixPlan(LEAGUE, PRICES));
    p := Params(map[], map[], MatrixPlan(LEAGUE, PRICES));
  }
}
