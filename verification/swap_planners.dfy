/** The eviction policies: static groups (internal/router/group.go) and the matrix
    (internal/router/matrix.go). */
module GroupPlanner {
  import opened Names
  import opened Scheduler
  import SchedulerSafety
  import opened SchedulerFixpoint

  datatype Group = Group(swap: bool, exclusive: bool, persistent: bool)

  const NO_GROUP := Group(false, false, false)

  /** A model of no group counts as a member of a group with the empty name. */
  datatype Groups = Groups(groupOf: map<string, string>, groups: map<string, Group>) {
    function Of(m: string): string {
      if m in groupOf then groupOf[m] else ""
    }

    function Rules(g: string): Group {
      if g in groups then groups[g] else NO_GROUP
    }

    /** Loading the target stops the other model when both share a swap group, or when the
        target's group is exclusive and the other's is a different one that is not persistent. */
    predicate Stops(target: string, m: string) {
      m != target &&
      if Of(m) == Of(target) then Rules(Of(target)).swap
      else Rules(Of(target)).exclusive && !Rules(Of(m)).persistent
    }
  }

  /** The running models that the target stops, in order, each once. */
  function Evictions(gs: Groups, target: string, running: seq<string>): seq<string> {
    if running == [] then []
    else
      var last := running[|running| - 1];
      var rest := Evictions(gs, target, running[..|running| - 1]);
      if gs.Stops(target, last) && last !in rest then rest + [last] else rest
  }

  lemma {:induction false} EvictionsAre(gs: Groups, target: string, running: seq<string>)
    ensures forall m :: m in Evictions(gs, target, running) <==> m in running && gs.Stops(target, m)
    ensures NoDup(Evictions(gs, target, running))
  {
    if running != [] {
      var init := running[..|running| - 1];
      EvictionsAre(gs, target, init);
      assert running == init + [running[|running| - 1]];
    }
  }

  /** The group that a model was put into by name. */
  ghost predicate Member(gs: Groups, m: string, g: string) {
    if m in gs.groupOf then gs.groupOf[m] == g else g == ""
  }

  /** Starting a model of a swap group leaves no other member of it running, and of one without
      swap all of them. An exclusive group leaves, of other groups, the persistent members running
      and nobody else; any other group leaves all of them. */
  lemma StartLeavesRunning(gs: Groups, target: string, g: string, running: seq<string>, m: string, h: string)
    requires Member(gs, target, g) && Member(gs, m, h) && m in running
    ensures var stays := m !in Evictions(gs, target, running);
      && (m == target ==> stays)
      && (m != target && g == h ==> (stays <==> !(g in gs.groups && gs.groups[g].swap)))
      && (g != h && g in gs.groups && gs.groups[g].exclusive ==>
            (stays <==> h in gs.groups && gs.groups[h].persistent))
      && (g != h && !(g in gs.groups && gs.groups[g].exclusive) ==> stays)
  {
    EvictionsAre(gs, target, running);
  }

  /** A target that is in no group, of settings without a group of no name, stops nothing. */
  lemma {:induction false} NoGroupStopsNothing(gs: Groups, target: string, running: seq<string>)
    requires target !in gs.groupOf && "" !in gs.groups
    ensures Evictions(gs, target, running) == []
  {
    if running != [] {
      NoGroupStopsNothing(gs, target, running[..|running| - 1]);
    }
  }

  /** Models are stopped in the order in which they were found running. */
  lemma {:induction false} EvictionsInOrder(gs: Groups, target: string, running: seq<string>)
    ensures SchedulerSafety.Subsequence(Evictions(gs, target, running), running)
  {
    if running != [] {
      var init, last := running[..|running| - 1], running[|running| - 1];
      EvictionsInOrder(gs, target, init);
      assert running == init + [last];
      SchedulerSafety.SubsequenceSnoc(Evictions(gs, target, init), init, last);
    }
  }

  class GroupSwapper {
    const settings: Groups

    constructor (settings: Groups)
      ensures this.settings == settings
    {
      this.settings := settings;
    }

    method EvictionFor(target: string, running: seq<string>) returns (result: seq<string>)
      ensures result == Evictions(settings, target, running)
    {
      var tg := settings.Of(target);
      var tgCfg := settings.Rules(tg);
      var seen: set<string> := {};
      result := [];
      for i := 0 to |running|
        invariant result == Evictions(settings, target, running[..i]) && seen == Elems(result)
      {
        assert running[..i + 1][..i] == running[..i];
        var m := running[i];
        if m == target || m in seen {
          continue;
        }
        var og := settings.Of(m);
        if (og == tg && tgCfg.swap) || (og != tg && tgCfg.exclusive && !settings.Rules(og).persistent) {
          seen := seen + {m};
          ElemsAppend(result, [m]);
          assert Elems([m]) == {m};
          result := result + [m];
        }
      }
      assert running[..|running|] == running;
    }
  }

  function GroupPlan(gs: Groups): Planner {
    (target, running) => Evictions(gs, target, running)
  }

  /** The group planner evicts running models only and never its target, and evicts no less when
      more is running. */
  lemma GroupPlansWell(gs: Groups)
    ensures PlansWell(GroupPlan(gs)) && Monotone(GroupPlan(gs))
  {
    forall target, running
      ensures forall m | m in GroupPlan(gs)(target, running) :: m in running && m != target
    {
      EvictionsAre(gs, target, running);
    }
    forall target, few, many | Elems(few) <= Elems(many)
      ensures Elems(GroupPlan(gs)(target, few)) <= Elems(GroupPlan(gs)(target, many))
    {
      EvictionsAre(gs, target, few);
      EvictionsAre(gs, target, many);
      assert forall m | m in few :: m in Elems(few) && m in many;
    }
  }

  /** Under groups every drain is final. */
  lemma GroupDrainsAreFinal(p: Params, gs: Groups)
    requires p.plan == GroupPlan(gs)
    ensures forall s :: IsFinal(p, s)
  {
    GroupPlansWell(gs);
    MonotoneSpares(p.plan);
    DrainIsFinalExactly(p);
  }
}

module MatrixPlanner {
  import opened Names
  import opened Scheduler
  import opened MatrixProgram
  import opened MatrixSolve
  import MatrixQuery

  /** Remembers the last decision. */
  class MatrixSwapper {
    const program: Program
    const costs: Costs

    var lastTarget: string
    var lastRunning: seq<string>
    var lastResult: Decision
    var lastValid: bool

    ghost predicate Valid()
      reads this
    {
      && program.Good()
      && (lastValid ==> lastResult == Solution(program, lastTarget, lastRunning, costs))
    }

    constructor (program: Program, costs: Costs)
      requires program.Good()
      ensures Valid() && this.program == program && this.costs == costs
    {
      this.program := program;
      this.costs := costs;
      lastTarget, lastRunning, lastValid := "", [], false;
      lastResult := Decision([], [], "", "", 0);
    }

    /** Remembering the last decision never changes an answer. */
    method Solve(target: string, running: seq<string>) returns (d: Decision)
      requires Valid()
      modifies this
      ensures Valid() && d == Solution(program, target, running, costs)
      ensures lastValid && lastTarget == target && lastRunning == running
    {
      if lastValid && lastTarget == target && lastRunning == running {
        return lastResult;
      }
      d := MatrixQuery.Solve(program, target, running, costs);
      lastTarget := target;
      lastRunning := running;
      lastResult := d;
      lastValid := true;
    }

    method EvictionFor(target: string, running: seq<string>) returns (evict: seq<string>)
      requires Valid()
      modifies this
      ensures Valid() && evict == MatrixPlan(program, costs)(target, running)
    {
      var d := Solve(target, running);
      evict := d.evict;
    }

    /** Reports the decision that EvictionFor just took. */
    method OnSwapStart(target: string, running: seq<string>) returns (d: Decision)
      requires Valid()
      modifies this
      ensures Valid() && d == Solution(program, target, running, costs)
      ensures old(lastValid && lastTarget == target && lastRunning == running) ==> d == old(lastResult)
    {
      d := Solve(target, running);
    }
  }

  ghost function MatrixPlan(p: Program, costs: Costs): Planner
    requires p.Good()
  {
    (target: string, running: seq<string>) => Solution(p, target, running, costs).evict
  }

  lemma OutsideOnly(running: seq<string>, kept: set<string>)
    ensures forall m :: m in Outside(running, kept) <==> m in running && m !in kept
  {
    OutsideElems(running, kept);
    forall m
      ensures m in Outside(running, kept) <==> m in running && m !in kept
    {
      assert m in Outside(running, kept) <==> m in Elems(Outside(running, kept));
      assert m in running <==> m in Elems(running);
    }
  }

  /** The matrix planner evicts running models only, and never its target. */
  lemma MatrixPlansWell(p: Program, costs: Costs)
    requires p.Good()
    ensures PlansWell(MatrixPlan(p, costs))
  {
    forall target, running
      ensures forall m | m in MatrixPlan(p, costs)(target, running) :: m in running && m != target
    {
      if target !in running {
        var best := BestUpTo(Frontiers(p, Relevant(target, running)), target, running, costs, |p.sets|);
        if best.Best? {
          OutsideOnly(running, best.state.mask);
        }
      }
    }
  }

  /** What stays with the target: with a choice, one expanded set holds the target and everything
      that was not stopped; with none, everything was stopped. */
  lemma MatrixKeepsOneSet(p: Program, costs: Costs, target: string, running: seq<string>)
    requires p.Good() && NonNegative(costs) && target !in running
    ensures var evict := MatrixPlan(p, costs)(target, running);
      if exists i, x :: Choice(Families(p), i, target, x)
      then FitsSome(p, (Elems(running) - Elems(evict)) + {target})
      else evict == running
  {
    SolveIsOptimal(p, target, running, costs);
    var families := Families(p);
    var d := Solution(p, target, running, costs);
    if exists i, x :: Choice(families, i, target, x) {
      var k, s :| Cheapest(families, target, running, costs, k, s) && Takes(p.sets, running, costs, d, k, s);
      StaysInside(families, k, s, target, running, d.evict);
    }
  }

  lemma StaysInside(families: seq<set<set<string>>>, k: nat, s: set<string>, target: string, running: seq<string>, evict: seq<string>)
    requires Choice(families, k, target, s) && evict == Outside(running, s)
    ensures exists i, x :: 0 <= i < |families| && x in families[i] && (Elems(running) - Elems(evict)) + {target} <= x
  {
    OutsideElems(running, s);
    assert (Elems(running) - Elems(evict)) + {target} <= s;
  }
}

/** Which models may take over for each other (internal/config/selectors.go). */
module Selectors {
  import opened Names
  import opened MatrixProgram
  import opened MatrixSolve
  import MatrixQuery
  import opened GroupPlanner
  import opened MatrixPlanner

  datatype Routing = Matrix(program: Option<Program>) | ByGroup(gs: Groups)

  ghost predicate RoutingOk(r: Routing) {
    r.Matrix? && r.program.Some? ==> r.program.value.Good()
  }

  /** The targets of a spillover selector can be up at the same time. */
  ghost predicate Accepted(r: Routing, targets: seq<string>)
    requires RoutingOk(r)
  {
    |targets| > 1 ==>
      match r
      case Matrix(program) => program.Some? && FitsSome(program.value, Elems(targets))
      case ByGroup(gs) =>
        && gs.Of(targets[0]) != "" && !gs.Rules(gs.Of(targets[0])).swap
        && forall t | t in targets :: gs.Of(t) == gs.Of(targets[0])
  }

  /** Under groups, several targets are accepted exactly when all of them were put into one group
      by its name, and that does not swap. */
  lemma AcceptedGroupExactly(gs: Groups, targets: seq<string>)
    ensures Accepted(ByGroup(gs), targets) <==>
      || |targets| <= 1
      || exists g ::
           && g != "" && !(g in gs.groups && gs.groups[g].swap)
           && forall t | t in targets :: t in gs.groupOf && gs.groupOf[t] == g
  {
    if |targets| > 1 {
      var g := gs.Of(targets[0]);
      assert targets[0] in targets;
      if Accepted(ByGroup(gs), targets) {
        assert forall t | t in targets :: t in gs.groupOf && gs.groupOf[t] == g;
      }
    }
  }

  method ValidateSpilloverCoexistence(r: Routing, targets: seq<string>) returns (ok: bool)
    requires RoutingOk(r)
    ensures ok <==> Accepted(r, targets)
  {
    if |targets| <= 1 {
      return true;
    }
    match r
    case Matrix(program) =>
      if program.None? {
        return false;
      }
      ok := MatrixQuery.CanContainAll(program.value, targets);
    case ByGroup(gs) =>
      var groupID := gs.Of(targets[0]);
      if groupID == "" || gs.Rules(groupID).swap {
        return false;
      }
      for i := 1 to |targets|
        invariant forall j | 0 <= j < i :: gs.Of(targets[j]) == groupID
      {
        if gs.Of(targets[i]) != groupID {
          return false;
        }
      }
      ok := true;
  }

  /** Accepted matrix targets stop nothing when only such targets are running. */
  lemma AcceptedMatrixTargetsCoexist(p: Program, costs: Costs, targets: seq<string>, target: string, running: seq<string>)
    requires p.Good() && Positive(costs) && Accepted(Matrix(Some(p)), targets)
    requires target in targets && Elems(running) <= Elems(targets)
    ensures MatrixPlan(p, costs)(target, running) == []
  {
    if |targets| <= 1 {
      OnlyTheTarget(targets, target, running);
      AloneStopsNothing(p, costs, target);
    } else {
      assert target in Elems(targets);
      FittingTargets(p, costs, Elems(targets), target, running);
    }
  }

  lemma AloneStopsNothing(p: Program, costs: Costs, target: string)
    requires p.Good()
    ensures MatrixPlan(p, costs)(target, []) == []
  {
    MatrixPlansWell(p, costs);
    assert forall m | m in MatrixPlan(p, costs)(target, []) :: m in [];
  }

  lemma FittingTargets(p: Program, costs: Costs, models: set<string>, target: string, running: seq<string>)
    requires p.Good() && Positive(costs) && FitsSome(p, models)
    requires target in models && Elems(running) <= models
    ensures MatrixPlan(p, costs)(target, running) == []
  {
    if target !in running {
      var i, s :| 0 <= i < |p.sets| && s in Families(p)[i] && models <= s;
      AFreeChoiceStopsNothing(p, costs, target, running, i, s);
    }
  }

  lemma OnlyTheTarget(targets: seq<string>, target: string, running: seq<string>)
    requires |targets| <= 1 && target in targets && Elems(running) <= Elems(targets)
    ensures running == [] || target in running
  {
    if running != [] {
      assert running[0] in Elems(running) && running[0] in Elems(targets);
    }
  }

  /** When some expanded set holds the target and all that is running, nothing is stopped. */
  lemma AFreeChoiceStopsNothing(p: Program, costs: Costs, target: string, running: seq<string>, i: nat, s: set<string>)
    requires p.Good() && Positive(costs) && target !in running
    requires i < |p.sets| && s in Families(p)[i] && Elems(running) + {target} <= s
    ensures MatrixPlan(p, costs)(target, running) == []
  {
    SolveIsOptimal(p, target, running, costs);
    assert Choice(Families(p), i, target, s);
    var d := Solution(p, target, running, costs);
    var k, x :| Cheapest(Families(p), target, running, costs, k, x) && Takes(p.sets, running, costs, d, k, x);
    KeepingAllIsFree(costs, running, s);
    CostMonotone(costs, running, x, x);
    ZeroCostKeepsAll(costs, running, x);
  }

  /** And when targets are refused, some of them, running, stop for another. */
  lemma RefusedMatrixTargetsCollide(p: Program, costs: Costs, targets: seq<string>) returns (target: string, running: seq<string>)
    requires p.Good() && NonNegative(costs) && !Accepted(Matrix(Some(p)), targets)
    requires NoDup(targets)
    ensures target in targets && Elems(running) <= Elems(targets)
    ensures MatrixPlan(p, costs)(target, running) != []
  {
    target, running := targets[0], targets[1..];
    assert targets == [target] + running;
    ElemsAppend([target], running);
    assert Elems([target]) == {target};
    assert forall j :: 0 <= j < |running| ==> running[j] == targets[j + 1];
    SomethingIsStopped(p, costs, target, running, targets);
  }

  lemma SomethingIsStopped(p: Program, costs: Costs, target: string, running: seq<string>, targets: seq<string>)
    requires p.Good() && NonNegative(costs) && target !in running && running != []
    requires Elems(targets) == Elems(running) + {target} && !FitsSome(p, Elems(targets))
    ensures MatrixPlan(p, costs)(target, running) != []
  {
    MatrixKeepsOneSet(p, costs, target, running);
    assert Elems<string>([]) == {};
    assert (Elems(running) - {}) + {target} == Elems(targets);
  }

  /** Accepted group targets never stop each other, whatever else is running. */
  lemma AcceptedGroupTargetsCoexist(gs: Groups, targets: seq<string>, target: string, running: seq<string>)
    requires Accepted(ByGroup(gs), targets) && target in targets
    ensures forall t | t in targets :: t !in GroupPlan(gs)(target, running)
  {
    EvictionsAre(gs, target, running);
    if |targets| == 1 {
      assert targets == [targets[0]];
    }
  }
}
