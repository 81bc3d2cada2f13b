/** What Solve and CanContainAll decide (internal/matrix/program.go), as functions on the
    projected frontiers, and what those decisions mean for the full expansion. */
module MatrixSolve {
  import opened Names
  import opened MatrixProgram
  import opened MatrixFrontier
  import BitMasks

  datatype Decision = Decision(evict: seq<string>, targetSet: seq<string>, setName: string, dsl: string, totalCost: int)

  type Costs = map<string, int>

  function EvictionCost(costs: Costs, model: string): int {
    if model in costs then costs[model] else 1
  }

  /** What it costs to stop the running models that a set does not hold. */
  function Cost(costs: Costs, running: seq<string>, kept: set<string>): int {
    if running == [] then 0
    else
      var last := running[|running| - 1];
      Cost(costs, running[..|running| - 1], kept) + if last in kept then 0 else EvictionCost(costs, last)
  }

  /** The running models that a set does not hold, in order. */
  function Outside(running: seq<string>, kept: set<string>): seq<string> {
    if running == [] then []
    else
      var last := running[|running| - 1];
      var rest := Outside(running[..|running| - 1], kept);
      if last in kept then rest else rest + [last]
  }

  lemma {:induction false} OutsideElems(running: seq<string>, kept: set<string>)
    ensures Elems(Outside(running, kept)) == Elems(running) - kept
  {
    if running != [] {
      var init := running[..|running| - 1];
      OutsideElems(init, kept);
      ElemsAppend(init, [running[|running| - 1]]);
      assert running == init + [running[|running| - 1]];
      ElemsAppend(Outside(init, kept), [running[|running| - 1]]);
      assert Elems([running[|running| - 1]]) == {running[|running| - 1]};
    }
  }

  ghost predicate NonNegative(costs: Costs) {
    forall m | m in costs :: costs[m] >= 0
  }

  ghost predicate Positive(costs: Costs) {
    forall m | m in costs :: costs[m] > 0
  }

  /** Keeping more costs no more. */
  lemma {:induction false} CostMonotone(costs: Costs, running: seq<string>, less: set<string>, more: set<string>)
    requires NonNegative(costs)
    requires forall m | m in running && m in less :: m in more
    ensures 0 <= Cost(costs, running, more) <= Cost(costs, running, less)
  {
    if running != [] {
      CostMonotone(costs, running[..|running| - 1], less, more);
    }
  }

  lemma CostOfProjection(costs: Costs, running: seq<string>, kept: set<string>, relevant: set<string>)
    requires NonNegative(costs) && Elems(running) <= relevant
    ensures Cost(costs, running, kept * relevant) == Cost(costs, running, kept)
  {
    assert forall m | m in running :: m in Elems(running);
    CostMonotone(costs, running, kept, kept * relevant);
    CostMonotone(costs, running, kept * relevant, kept);
  }

  /** With positive costs, nothing is free to stop. */
  lemma {:induction false} ZeroCostKeepsAll(costs: Costs, running: seq<string>, kept: set<string>)
    requires Positive(costs) && Cost(costs, running, kept) == 0
    ensures Elems(running) <= kept && Outside(running, kept) == []
  {
    if running != [] {
      var init := running[..|running| - 1];
      CostMonotone(costs, init, kept, kept);
      ZeroCostKeepsAll(costs, init, kept);
      assert running == init + [running[|running| - 1]];
    }
  }

  lemma {:induction false} KeepingAllIsFree(costs: Costs, running: seq<string>, kept: set<string>)
    requires Elems(running) <= kept
    ensures Cost(costs, running, kept) == 0
  {
    if running != [] {
      var init := running[..|running| - 1];
      assert running == init + [running[|running| - 1]];
      assert running[|running| - 1] in Elems(running);
      assert forall m | m in init :: m in Elems(running);
      KeepingAllIsFree(costs, init, kept);
    }
  }

  // ---- Choosing ----

  datatype Best = Nothing | Best(cost: int, setIndex: nat, state: State)

  function Better(best: Best, cost: int, i: nat, state: State): Best {
    if best.Nothing? || best.cost < 0 || cost < best.cost then Best(cost, i, state) else best
  }

  /** The loop over one set's states. */
  function BestIn(best: Best, i: nat, states: seq<State>, target: string, running: seq<string>, costs: Costs): Best {
    if states == [] then best
    else
      var last := states[|states| - 1];
      var soFar := BestIn(best, i, states[..|states| - 1], target, running, costs);
      if target in last.mask then Better(soFar, Cost(costs, running, last.mask), i, last) else soFar
  }

  /** The loop over the first k sets, given each set's states. */
  function BestUpTo(fronts: seq<seq<State>>, target: string, running: seq<string>, costs: Costs, k: nat): Best
    requires k <= |fronts|
  {
    if k == 0 then Nothing
    else BestIn(BestUpTo(fronts, target, running, costs, k - 1), k - 1, fronts[k - 1], target, running, costs)
  }

  /** s is an expanded set of set i, and holds the target. */
  ghost predicate Choice(families: seq<set<set<string>>>, i: int, target: string, s: set<string>) {
    0 <= i < |families| && s in families[i] && target in s
  }

  /** No better than best: not cheaper, and dearer when it comes from an earlier set. */
  ghost predicate Beats(best: Best, i: int, cost: int) {
    best.Best? && best.cost <= cost && (i < best.setIndex ==> best.cost < cost)
  }

  /** best is one of the states that the loops have passed. */
  ghost predicate Passed(fronts: seq<seq<State>>, target: string, running: seq<string>, costs: Costs, k: nat, best: Best) {
    best.Best? ==>
      && best.setIndex < k <= |fronts| && best.state in fronts[best.setIndex]
      && target in best.state.mask && best.cost == Cost(costs, running, best.state.mask) >= 0
  }

  ghost predicate BeatsStates(states: seq<State>, i: nat, target: string, running: seq<string>, costs: Costs, best: Best) {
    forall s | s in states && target in s.mask :: Beats(best, i, Cost(costs, running, s.mask))
  }

  lemma {:induction false} BestInIsBest(fronts: seq<seq<State>>, target: string, running: seq<string>, costs: Costs,
                                        k: nat, before: Best, n: nat)
    requires NonNegative(costs) && k < |fronts| && n <= |fronts[k]|
    requires Passed(fronts, target, running, costs, k, before)
    requires forall i | 0 <= i < k :: BeatsStates(fronts[i], i, target, running, costs, before)
    ensures var best := BestIn(before, k, fronts[k][..n], target, running, costs);
      && Passed(fronts, target, running, costs, k + 1, best)
      && BeatsStates(fronts[k][..n], k, target, running, costs, best)
      && forall i | 0 <= i < k :: BeatsStates(fronts[i], i, target, running, costs, best)
  {
    if n > 0 {
      BestInIsBest(fronts, target, running, costs, k, before, n - 1);
      var states := fronts[k][..n];
      assert states[..n - 1] == fronts[k][..n - 1];
      assert states == states[..n - 1] + [states[n - 1]];
      assert states[n - 1] in fronts[k];
      CostMonotone(costs, running, states[n - 1].mask, states[n - 1].mask);
    }
  }

  lemma {:induction false} BestUpToIsBest(fronts: seq<seq<State>>, target: string, running: seq<string>, costs: Costs, k: nat)
    requires NonNegative(costs) && k <= |fronts|
    ensures Passed(fronts, target, running, costs, k, BestUpTo(fronts, target, running, costs, k))
    ensures forall i | 0 <= i < k ::
              BeatsStates(fronts[i], i, target, running, costs, BestUpTo(fronts, target, running, costs, k))
  {
    if k > 0 {
      BestUpToIsBest(fronts, target, running, costs, k - 1);
      var n := |fronts[k - 1]|;
      assert fronts[k - 1][..n] == fronts[k - 1];
      BestInIsBest(fronts, target, running, costs, k - 1, BestUpTo(fronts, target, running, costs, k - 1), n);
    }
  }

  ghost function Relevant(target: string, running: seq<string>): set<string> {
    {target} + Elems(running)
  }

  /** A set that holds the target is met by a state that costs no more. */
  lemma ChoiceHasState(states: seq<State>, family: set<set<string>>, target: string, running: seq<string>, costs: Costs, s: set<string>)
    returns (st: State)
    requires Represents(states, Relevant(target, running), family) && NonNegative(costs)
    requires s in family && target in s
    ensures st in states && target in st.mask && Cost(costs, running, st.mask) <= Cost(costs, running, s)
  {
    var rel := Relevant(target, running);
    assert Covered(states, s * rel);
    var j :| 0 <= j < |states| && s * rel <= states[j].mask;
    st := states[j];
    assert target in s * rel;
    CostOfProjection(costs, running, s, rel);
    CostMonotone(costs, running, s * rel, st.mask);
  }

  /** s, of set k, holds the target; no choice from any set is cheaper, and none from an earlier
      set is as cheap. */
  ghost predicate Cheapest(families: seq<set<set<string>>>, target: string, running: seq<string>, costs: Costs, k: nat, s: set<string>) {
    && Choice(families, k, target, s)
    && (forall i, x | Choice(families, i, target, x) ::
          && Cost(costs, running, s) <= Cost(costs, running, x)
          && (i < k ==> Cost(costs, running, s) < Cost(costs, running, x)))
  }

  /** The best state rebuilds a cheapest set; there is none only when no set holds the target. */
  lemma BestIsCheapest(fronts: seq<seq<State>>, families: seq<set<set<string>>>, target: string, running: seq<string>, costs: Costs)
    requires |fronts| == |families| && NonNegative(costs)
    requires forall i | 0 <= i < |fronts| :: Represents(fronts[i], Relevant(target, running), families[i])
    ensures var best := BestUpTo(fronts, target, running, costs, |fronts|);
      if best.Nothing? then forall i, x :: !Choice(families, i, target, x)
      else
        && best.setIndex < |fronts| && best.state in fronts[best.setIndex]
        && Cheapest(families, target, running, costs, best.setIndex, Models(best.state.origin))
        && best.cost == Cost(costs, running, Models(best.state.origin))
        && Outside(running, best.state.mask) == Outside(running, Models(best.state.origin))
  {
    var rel := Relevant(target, running);
    var best := BestUpTo(fronts, target, running, costs, |fronts|);
    BestUpToIsBest(fronts, target, running, costs, |fronts|);
    forall i, x | Choice(families, i, target, x)
      ensures Beats(best, i, Cost(costs, running, x))
    {
      var st := ChoiceHasState(fronts[i], families[i], target, running, costs, x);
      assert BeatsStates(fronts[i], i, target, running, costs, best);
    }
    if best.Best? {
      assert Represents(fronts[best.setIndex], rel, families[best.setIndex]);
      var s := Models(best.state.origin);
      assert best.state.mask == s * rel;
      CostOfProjection(costs, running, s, rel);
      assert forall m | m in running :: m in rel;
      SameOutside(running, best.state.mask, s);
    }
  }

  lemma {:induction false} SameOutside(running: seq<string>, a: set<string>, b: set<string>)
    requires forall m | m in running :: m in a <==> m in b
    ensures Outside(running, a) == Outside(running, b)
  {
    if running != [] {
      SameOutside(running[..|running| - 1], a, b);
    }
  }

  // ---- Programs ----

  /** The frontier of every set of a program for one query. */
  ghost function Frontiers(p: Program, relevant: set<string>): (fronts: seq<seq<State>>)
    requires p.Good()
    ensures |fronts| == |p.sets|
  {
    seq(|p.sets|, i requires 0 <= i < |p.sets| => (assert p.GoodSet(p.sets[i]); Evaluate(p.Linkage(), relevant, p.sets[i].root)))
  }

  /** The full expansion of every set of a program. */
  ghost function Families(p: Program): (families: seq<set<set<string>>>)
    requires p.Good()
    ensures |families| == |p.sets|
  {
    seq(|p.sets|, i requires 0 <= i < |p.sets| => (assert p.GoodSet(p.sets[i]); Expand(p.Linkage(), p.sets[i].root)))
  }

  lemma FrontiersRepresent(p: Program, relevant: set<string>)
    requires p.Good()
    ensures forall i | 0 <= i < |p.sets| :: Represents(Frontiers(p, relevant)[i], relevant, Families(p)[i])
  {
    forall i | 0 <= i < |p.sets|
      ensures Represents(Frontiers(p, relevant)[i], relevant, Families(p)[i])
    {
      assert p.GoodSet(p.sets[i]);
      FrontierRepresents(p.Linkage(), relevant, p.sets[i].root);
    }
  }

  /** The first set from i on that can hold all the models. */
  function FindFrom(sets: seq<CompiledSet>, fronts: seq<seq<State>>, models: set<string>, i: nat): (string, string)
    requires i <= |sets| == |fronts|
    decreases |sets| - i
  {
    if i == |sets| then ("", "")
    else if Covered(fronts[i], models) then (sets[i].name, sets[i].dsl)
    else FindFrom(sets, fronts, models, i + 1)
  }

  ghost function FindContaining(p: Program, models: seq<string>): (string, string)
    requires p.Good()
  {
    if models == [] then ("", "") else FindFrom(p.sets, Frontiers(p, Elems(models)), Elems(models), 0)
  }

  /** The decision that Solve returns. */
  ghost function Solution(p: Program, target: string, running: seq<string>, costs: Costs): Decision
    requires p.Good()
  {
    if target in running then
      var found := FindContaining(p, running);
      Decision([], running, found.0, found.1, 0)
    else
      Chosen(p.sets, target, running, BestUpTo(Frontiers(p, Relevant(target, running)), target, running, costs, |p.sets|))
  }

  ghost function Chosen(sets: seq<CompiledSet>, target: string, running: seq<string>, best: Best): Decision {
    if best.Best? && best.setIndex < |sets| then
      Decision(Outside(running, best.state.mask), Listing(Models(best.state.origin) - {""}),
               sets[best.setIndex].name, sets[best.setIndex].dsl, best.cost)
    else
      Decision(running, [target], "", "", 0)
  }

  /** d is the decision for set s of matrix set k: it evicts what s does not hold, at its cost,
      and lists s. (A model with an empty name would not be listed.) */
  ghost predicate Takes(sets: seq<CompiledSet>, running: seq<string>, costs: Costs, d: Decision, k: nat, s: set<string>) {
    && k < |sets| && d.setName == sets[k].name && d.dsl == sets[k].dsl
    && d.evict == Outside(running, s) && d.totalCost == Cost(costs, running, s)
    && Lists(d.targetSet, s - {""})
  }

  /** Solve is optimal over the full expansion, and takes the first set that reaches the optimum.
      Only when no expanded set holds the target is everything running stopped. */
  lemma SolveIsOptimal(p: Program, target: string, running: seq<string>, costs: Costs)
    requires p.Good() && NonNegative(costs) && target !in running
    ensures var d := Solution(p, target, running, costs);
      if exists i, x :: Choice(Families(p), i, target, x)
      then exists k, s :: Cheapest(Families(p), target, running, costs, k, s) && Takes(p.sets, running, costs, d, k, s)
      else d == Decision(running, [target], "", "", 0)
  {
    var families := Families(p);
    var fronts := Frontiers(p, Relevant(target, running));
    FrontiersRepresent(p, Relevant(target, running));
    var d := SolveIsCheapest(p.sets, fronts, families, target, running, costs);
    assert d == Solution(p, target, running, costs);
  }

  lemma SolveIsCheapest(sets: seq<CompiledSet>, fronts: seq<seq<State>>, families: seq<set<set<string>>>,
                        target: string, running: seq<string>, costs: Costs) returns (d: Decision)
    requires |sets| == |fronts| == |families| && NonNegative(costs)
    requires forall i | 0 <= i < |fronts| :: Represents(fronts[i], Relevant(target, running), families[i])
    ensures d == Chosen(sets, target, running, BestUpTo(fronts, target, running, costs, |sets|))
    ensures
      if exists i, x :: Choice(families, i, target, x)
      then exists k, s :: Cheapest(families, target, running, costs, k, s) && Takes(sets, running, costs, d, k, s)
      else d == Decision(running, [target], "", "", 0)
  {
    BestIsCheapest(fronts, families, target, running, costs);
    var best := BestUpTo(fronts, target, running, costs, |fronts|);
    d := Chosen(sets, target, running, best);
    if best.Best? {
      var s := Models(best.state.origin);
      assert Choice(families, best.setIndex, target, s);
      assert Takes(sets, running, costs, d, best.setIndex, s);
    }
  }

  // ---- What a decision costs ----

  function Sum(xs: seq<int>): int {
    if xs == [] then 0 else Sum(xs[..|xs| - 1]) + xs[|xs| - 1]
  }

  /** What is evicted is what the set does not hold, and in the order in which it was given. */
  lemma {:induction false} OutsideInOrder(before: seq<string>, m: string, after: seq<string>, kept: set<string>)
    ensures Outside(before + [m] + after, kept) ==
            Outside(before, kept) + (if m in kept then [] else [m]) + Outside(after, kept)
    ensures Outside([], kept) == []
  {
    if after == [] {
      assert before + [m] + after == before + [m];
      assert (before + [m])[..|before|] == before;
    } else {
      var init := after[..|after| - 1];
      OutsideInOrder(before, m, init, kept);
      assert (before + [m] + after)[..|before + [m] + after| - 1] == before + [m] + init;
    }
  }

  /** The prices of these models: what is configured for each, or 1. */
  ghost predicate Prices(costs: Costs, models: seq<string>, prices: seq<int>) {
    |prices| == |models| &&
    forall k | 0 <= k < |models| :: prices[k] == if models[k] in costs then costs[models[k]] else 1
  }

  lemma PricesExist(costs: Costs, models: seq<string>) returns (prices: seq<int>)
    ensures Prices(costs, models, prices)
  {
    prices := seq(|models|, k requires 0 <= k < |models| => if models[k] in costs then costs[models[k]] else 1);
  }

  /** A set costs the prices of what it does not keep. */
  lemma {:induction false} CostIsConfigured(costs: Costs, running: seq<string>, kept: set<string>, prices: seq<int>)
    requires Prices(costs, Outside(running, kept), prices)
    ensures Cost(costs, running, kept) == Sum(prices)
  {
    if running != [] {
      var init, last := running[..|running| - 1], running[|running| - 1];
      if last in kept {
        CostIsConfigured(costs, init, kept, prices);
      } else {
        assert Outside(running, kept)[|prices| - 1] == last;
        CostIsConfigured(costs, init, kept, prices[..|prices| - 1]);
      }
    }
  }

  /** The total cost of a decision with a set is the sum of the prices of what it evicts: what is
      configured for each model, or 1. */
  lemma DecisionCostsItsEvictions(p: Program, target: string, running: seq<string>, costs: Costs, i: nat, x: set<string>, prices: seq<int>)
    requires p.Good() && NonNegative(costs) && target !in running && Choice(Families(p), i, target, x)
    requires Prices(costs, Solution(p, target, running, costs).evict, prices)
    ensures Solution(p, target, running, costs).totalCost == Sum(prices)
  {
    SolveIsOptimal(p, target, running, costs);
    var d := Solution(p, target, running, costs);
    var k, s :| Cheapest(Families(p), target, running, costs, k, s) && Takes(p.sets, running, costs, d, k, s);
    CostIsConfigured(costs, running, s, prices);
  }

  /** One evicted model costs just what is configured for it. */
  lemma SingleEvictionCosts(p: Program, target: string, running: seq<string>, costs: Costs, i: nat, x: set<string>, m: string)
    requires p.Good() && NonNegative(costs) && target !in running && Choice(Families(p), i, target, x)
    requires Solution(p, target, running, costs).evict == [m]
    ensures Solution(p, target, running, costs).totalCost == if m in costs then costs[m] else 1
  {
    var price := if m in costs then costs[m] else 1;
    DecisionCostsItsEvictions(p, target, running, costs, i, x, [price]);
    assert [price][..0] == [] && Sum([]) == 0;
  }

  /** What is evicted never costs more than what another set with the target would evict, so a
      dearer set is never chosen. */
  lemma DearerIsNeverChosen(p: Program, target: string, running: seq<string>, costs: Costs, i: nat, x: set<string>,
                            prices: seq<int>, others: seq<int>)
    requires p.Good() && NonNegative(costs) && target !in running && Choice(Families(p), i, target, x)
    requires Prices(costs, Solution(p, target, running, costs).evict, prices)
    requires Prices(costs, Outside(running, x), others)
    ensures Sum(prices) <= Sum(others)
  {
    SolveIsOptimal(p, target, running, costs);
    var d := Solution(p, target, running, costs);
    var k, s :| Cheapest(Families(p), target, running, costs, k, s) && Takes(p.sets, running, costs, d, k, s);
    CostIsConfigured(costs, running, s, prices);
    CostIsConfigured(costs, running, x, others);
  }

  /** A target that runs stays beside everything: nothing is evicted, at no cost, and what runs is
      reported. */
  lemma RunningTargetStays(p: Program, target: string, running: seq<string>, costs: Costs)
    requires p.Good() && target in running
    ensures var d := Solution(p, target, running, costs);
      d.evict == [] && d.totalCost == 0 && d.targetSet == running
  {
  }

  // ---- Containment ----

  /** Some expanded set holds all of these models. */
  ghost predicate FitsSome(p: Program, models: set<string>)
    requires p.Good()
  {
    exists i, s :: 0 <= i < |p.sets| && s in Families(p)[i] && models <= s
  }

  lemma CoveredMeansContained(states: seq<State>, models: set<string>, family: set<set<string>>)
    requires Represents(states, models, family)
    ensures Covered(states, models) <==> exists s :: s in family && models <= s
  {
    if Covered(states, models) {
      var j :| 0 <= j < |states| && models <= states[j].mask;
      assert states[j] in states;
      assert Models(states[j].origin) in family;
    }
    if s :| s in family && models <= s {
      assert Covered(states, s * models);
      assert s * models == models;
    }
  }

  /** A set whose expression does not mention a model expands to no set that holds it and has no
      state that shows it: skipping it by its support mask is exact. */
  lemma SkippingIsExact(p: Program, i: nat, model: string, relevant: set<string>)
    requires p.Good() && i < |p.sets|
    requires model !in p.modelBits || p.modelBits[model] !in BitMasks.Bits(p.sets[i].support)
    ensures forall s | s in Families(p)[i] :: model !in s
    ensures forall st | st in Frontiers(p, relevant)[i] :: model !in st.mask
  {
    assert p.GoodSet(p.sets[i]);
    assert model !in Mentions(p.Linkage(), p.sets[i].root);
    forall s | s in Families(p)[i]
      ensures model !in s
    {
      ExpandedIsMentioned(p.Linkage(), p.sets[i].root, s);
    }
    FrontiersRepresent(p, relevant);
    assert Represents(Frontiers(p, relevant)[i], relevant, Families(p)[i]);
  }
}
