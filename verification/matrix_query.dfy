/** Queries against a compiled program: Solve, CanContainAll, findContaining and flattenWitness
    (internal/matrix/program.go). */
module MatrixQuery {
  import opened Names
  import opened BitMasks
  import opened MatrixProgram
  import opened MatrixFrontier
  import opened MatrixEvaluator
  import opened MatrixSolve

  /** Collects the models of a witness, each once. */
  method Visit(w: Witness, models: seq<string>) returns (r: seq<string>)
    requires NoDup(models)
    ensures NoDup(r) && Elems(r) == Elems(models) + (Models(w) - {""})
    decreases w
  {
    r := models;
    match w
    case NoWitness =>
    case OneModel(model) =>
      if model != "" && model !in models {
        r := models + [model];
        ElemsAppend(models, [model]);
        assert Elems([model]) == {model};
      }
    case Both(left, right) =>
      r := Visit(left, r);
      r := Visit(right, r);
  }

  method FlattenWitness(w: Witness) returns (r: seq<string>)
    ensures r == Listing(Models(w) - {""})
  {
    var models := Visit(w, []);
    r := Sort(models);
    SortLists(models);
    ListsUnique(r, Listing(Models(w) - {""}), Models(w) - {""});
  }

  /** The evaluator was set up for this program and these models. */
  ghost predicate Serves(e: Evaluator, p: Program, relevant: set<string>) {
    && e.env == p.Linkage() && e.bits.Keys == relevant
    && Registry(e.bits) && e.words == WordsFor(|e.bits|)
  }

  method Begin(p: Program, relevant: seq<string>) returns (e: Evaluator)
    requires p.Good()
    ensures fresh(e) && fresh(e.arrays) && e.Valid() && Serves(e, p, Elems(relevant))
  {
    e := new Evaluator(p.Linkage(), p.roots, relevant);
  }

  /** The states of set i. */
  method EvalSet(e: Evaluator, p: Program, i: nat, ghost relevant: set<string>) returns (states: Slice)
    requires p.Good() && Serves(e, p, relevant) && i < |p.sets| && e.Valid()
    modifies e
    ensures e.Valid() && fresh(e.arrays - old(e.arrays))
    ensures Holds(e.bits, e.words, states, Frontiers(p, relevant)[i])
  {
    assert p.GoodSet(p.sets[i]);
    states := e.Eval(p.sets[i].root);
  }

  method HasModel(e: Evaluator, s: Stored, model: string, ghost state: State) returns (r: bool)
    requires model in e.bits && FitsQuery(e.bits, e.words, s.mask) && View(e.bits, s) == state
    requires Registry(e.bits) && e.words == WordsFor(|e.bits|)
    ensures r <==> model in state.mask
  {
    assert e.bits[model] in e.bits.Values;
    r := Has(s.mask, e.bits[model]);
  }

  /** The eviction cost of a state. */
  method StateCost(e: Evaluator, s: Stored, running: seq<string>, costs: Costs, ghost state: State) returns (cost: int)
    requires Elems(running) <= e.bits.Keys && FitsQuery(e.bits, e.words, s.mask) && View(e.bits, s) == state
    requires Registry(e.bits) && e.words == WordsFor(|e.bits|)
    ensures cost == Cost(costs, running, state.mask)
  {
    cost := 0;
    for i := 0 to |running|
      invariant cost == Cost(costs, running[..i], state.mask)
    {
      assert running[..i + 1][..i] == running[..i];
      assert running[i] in Elems(running);
      var kept := HasModel(e, s, running[i], state);
      if !kept {
        cost := cost + EvictionCost(costs, running[i]);
      }
    }
    assert running[..|running|] == running;
  }

  method Evicted(e: Evaluator, s: Stored, running: seq<string>, ghost state: State) returns (evict: seq<string>)
    requires Elems(running) <= e.bits.Keys && FitsQuery(e.bits, e.words, s.mask) && View(e.bits, s) == state
    requires Registry(e.bits) && e.words == WordsFor(|e.bits|)
    ensures evict == Outside(running, state.mask)
  {
    evict := [];
    for i := 0 to |running|
      invariant evict == Outside(running[..i], state.mask)
    {
      assert running[..i + 1][..i] == running[..i];
      assert running[i] in Elems(running);
      var kept := HasModel(e, s, running[i], state);
      if !kept {
        evict := evict + [running[i]];
      }
    }
    assert running[..|running|] == running;
  }

  // ---- Solve ----

  /** bestCost, bestSet and bestState as Solve keeps them. */
  datatype Pick = NoPick | Pick(cost: int, setIndex: nat, state: Stored)

  /** What Solve keeps stands for the best state of the specification. */
  ghost predicate Keeps(bits: map<string, nat>, words: nat, c: Pick, best: Best) {
    match c
    case NoPick => best.Nothing?
    case Pick(cost, i, s) => FitsQuery(bits, words, s.mask) && best == Best(cost, i, View(bits, s))
  }

  /** The inner loop: the states of one set. */
  method ScanStates(e: Evaluator, states: Slice, i: nat, target: string, running: seq<string>, costs: Costs, c: Pick,
                    ghost front: seq<State>, ghost before: Best)
    returns (r: Pick)
    requires Holds(e.bits, e.words, states, front) && Keeps(e.bits, e.words, c, before)
    requires Registry(e.bits) && e.words == WordsFor(|e.bits|)
    requires target in e.bits && Elems(running) <= e.bits.Keys
    ensures Keeps(e.bits, e.words, r, BestIn(before, i, front, target, running, costs))
    ensures r.Pick? ==> r.setIndex == i || (c.Pick? && r.setIndex == c.setIndex)
  {
    r := c;
    for j := 0 to states.len
      invariant r.Pick? ==> r.setIndex == i || (c.Pick? && r.setIndex == c.setIndex)
      invariant Keeps(e.bits, e.words, r, BestIn(before, i, front[..j], target, running, costs))
    {
      assert front[..j + 1][..j] == front[..j];
      assert states.data[..states.len][j] == states.data[j];
      var s := states.data[j];
      var holds := HasModel(e, s, target, front[j]);
      if holds {
        var cost := StateCost(e, s, running, costs, front[j]);
        if r.NoPick? || r.cost < 0 || cost < r.cost {
          r := Pick(cost, i, s);
        }
      }
    }
    assert front[..states.len] == front;
  }

  lemma {:induction false} NoHolderNoChange(before: Best, i: nat, states: seq<State>, target: string, running: seq<string>, costs: Costs)
    requires forall s | s in states :: target !in s.mask
    ensures BestIn(before, i, states, target, running, costs) == before
  {
    if states != [] {
      NoHolderNoChange(before, i, states[..|states| - 1], target, running, costs);
    }
  }

  /** One turn of the loop over the sets: a set whose support lacks the target is skipped. */
  method SolveSet(e: Evaluator, p: Program, i: nat, target: string, running: seq<string>, costs: Costs, c: Pick,
                  ghost front: seq<State>, ghost before: Best)
    returns (r: Pick)
    requires p.Good() && Serves(e, p, Relevant(target, running)) && i < |p.sets| && e.Valid()
    requires front == Frontiers(p, Relevant(target, running))[i]
    requires Keeps(e.bits, e.words, c, before)
    modifies e
    ensures e.Valid() && fresh(e.arrays - old(e.arrays))
    ensures Keeps(e.bits, e.words, r, BestIn(before, i, front, target, running, costs))
    ensures r.Pick? ==> r.setIndex == i || (c.Pick? && r.setIndex == c.setIndex)
  {
    ghost var relevant := Relevant(target, running);
    var supported := Supported(p, i, [target]);
    if supported {
      var states := EvalSet(e, p, i, relevant);
      r := ScanStates(e, states, i, target, running, costs, c, front, before);
    } else {
      assert target in [target];
      SkippingIsExact(p, i, target, relevant);
      NoHolderNoChange(before, i, front, target, running, costs);
      r := c;
    }
  }

  method Solve(p: Program, target: string, running: seq<string>, costs: Costs) returns (d: Decision)
    requires p.Good()
    ensures d == Solution(p, target, running, costs)
  {
    if target in running {
      var setName, dsl := FindContainingSet(p, running);
      return Decision([], running, setName, dsl, 0);
    }
    d := SolveAbsent(p, target, running, costs, Frontiers(p, Relevant(target, running)));
  }

  /** Solve for a target that is not running. */
  method SolveAbsent(p: Program, target: string, running: seq<string>, costs: Costs, ghost fronts: seq<seq<State>>)
    returns (d: Decision)
    requires p.Good() && fronts == Frontiers(p, Relevant(target, running))
    ensures d == Chosen(p.sets, target, running, BestUpTo(fronts, target, running, costs, |p.sets|))
  {
    ElemsAppend([target], running);
    assert Elems([target]) == {target};
    var e := Begin(p, [target] + running);
    var best := ScanSets(e, p, target, running, costs, fronts);
    d := Conclude(e, p, target, running, best, BestUpTo(fronts, target, running, costs, |p.sets|));
  }

  /** The loop over the sets. */
  method ScanSets(e: Evaluator, p: Program, target: string, running: seq<string>, costs: Costs, ghost fronts: seq<seq<State>>)
    returns (best: Pick)
    requires p.Good() && fronts == Frontiers(p, Relevant(target, running))
    requires Serves(e, p, Relevant(target, running)) && e.Valid()
    modifies e
    ensures best.Pick? ==> best.setIndex < |p.sets|
    ensures Keeps(e.bits, e.words, best, BestUpTo(fronts, target, running, costs, |p.sets|))
  {
    best := NoPick;
    for i := 0 to |p.sets|
      invariant e.Valid()
      invariant best.Pick? ==> best.setIndex < |p.sets|
      invariant Keeps(e.bits, e.words, best, BestUpTo(fronts, target, running, costs, i))
    {
      best := SolveSet(e, p, i, target, running, costs, best, fronts[i], BestUpTo(fronts, target, running, costs, i));
    }
  }

  method Conclude(e: Evaluator, p: Program, target: string, running: seq<string>, best: Pick, ghost spec: Best) returns (d: Decision)
    requires Registry(e.bits) && e.words == WordsFor(|e.bits|) && Elems(running) <= e.bits.Keys
    requires Keeps(e.bits, e.words, best, spec)
    requires best.Pick? ==> best.setIndex < |p.sets|
    ensures d == Chosen(p.sets, target, running, spec)
  {
    match best
    case NoPick =>
      d := Decision(running, [target], "", "", 0);
    case Pick(cost, i, s) =>
      var evict := Evicted(e, s, running, spec.state);
      var targetSet := FlattenWitness(s.origin);
      d := Decision(evict, targetSet, p.sets[i].name, p.sets[i].dsl, cost);
  }

  // ---- Containment ----

  /** supportsAll: whether the set's support has every model. */
  method Supported(p: Program, i: nat, models: seq<string>) returns (r: bool)
    requires p.Good() && i < |p.sets|
    ensures r <==> forall m | m in models :: m in p.modelBits && p.modelBits[m] in Bits(p.sets[i].support)
  {
    assert p.GoodSet(p.sets[i]);
    for j := 0 to |models|
      invariant forall m | m in models[..j] :: m in p.modelBits && p.modelBits[m] in Bits(p.sets[i].support)
    {
      assert models[..j + 1] == models[..j] + [models[j]];
      if models[j] !in p.modelBits {
        return false;
      }
      assert p.modelBits[models[j]] in p.modelBits.Values;
      if !Has(p.sets[i].support, p.modelBits[models[j]]) {
        return false;
      }
    }
    assert models[..|models|] == models;
    r := true;
  }

  /** Whether some state of the slice holds every model of the query. */
  method AnyFull(e: Evaluator, states: Slice, required: BitMask, ghost front: seq<State>) returns (r: bool)
    requires Holds(e.bits, e.words, states, front)
    requires FitsQuery(e.bits, e.words, required) && Shown(e.bits, required) == e.bits.Keys
    ensures r <==> Covered(front, e.bits.Keys)
  {
    for j := 0 to states.len
      invariant !Covered(front[..j], e.bits.Keys)
    {
      assert states.data[..states.len][j] == states.data[j];
      var inside := SubsetOf(required, states.data[j].mask);
      SubsetShown(e.bits, e.words, required, states.data[j].mask);
      if inside {
        assert e.bits.Keys <= front[j].mask;
        return true;
      }
      assert front[..j + 1] == front[..j] + [front[j]];
    }
    assert front[..states.len] == front;
    r := false;
  }

  method Everything(e: Evaluator) returns (required: BitMask)
    requires Registry(e.bits) && e.words == WordsFor(|e.bits|)
    ensures FitsQuery(e.bits, e.words, required) && Shown(e.bits, required) == e.bits.Keys
  {
    required := FullMask(e.words, |e.bits|);
    forall m | m in e.bits
      ensures m in Shown(e.bits, required)
    {
      assert e.bits[m] in e.bits.Values;
    }
  }

  /** Set i can hold all the models; a set without their support bits is skipped. */
  method SetContains(e: Evaluator, p: Program, i: nat, models: seq<string>, required: BitMask, ghost front: seq<State>) returns (r: bool)
    requires p.Good() && Serves(e, p, Elems(models)) && i < |p.sets| && e.Valid()
    requires FitsQuery(e.bits, e.words, required) && Shown(e.bits, required) == e.bits.Keys
    requires models != [] && front == Frontiers(p, Elems(models))[i]
    modifies e
    ensures e.Valid() && fresh(e.arrays - old(e.arrays))
    ensures r <==> Covered(front, Elems(models))
  {
    var supported := Supported(p, i, models);
    if !supported {
      ghost var m :| m in models && !(m in p.modelBits && p.modelBits[m] in Bits(p.sets[i].support));
      assert m in Elems(models);
      SkippingIsExact(p, i, m, Elems(models));
      assert forall j :: 0 <= j < |front| ==> front[j] in front;
      return false;
    }
    var states := EvalSet(e, p, i, Elems(models));
    r := AnyFull(e, states, required, front);
  }

  /** Some expanded set of set i holds all the models. */
  ghost predicate SetFits(p: Program, i: nat, models: set<string>)
    requires p.Good() && i < |p.sets|
  {
    exists s :: s in Families(p)[i] && models <= s
  }

  /** SetContains, read on the full expansion. */
  lemma ContainsIsFits(p: Program, i: nat, models: set<string>)
    requires p.Good() && i < |p.sets|
    ensures Covered(Frontiers(p, models)[i], models) <==> SetFits(p, i, models)
  {
    FrontiersRepresent(p, models);
    CoveredMeansContained(Frontiers(p, models)[i], models, Families(p)[i]);
  }

  /** The first set from i on whose frontier covers the models, or the number of sets. */
  function FirstCovered(fronts: seq<seq<State>>, models: set<string>, i: nat): (k: nat)
    requires i <= |fronts|
    ensures i <= k <= |fronts|
    ensures k < |fronts| ==> Covered(fronts[k], models)
    ensures forall j | i <= j < k :: !Covered(fronts[j], models)
    decreases |fronts| - i
  {
    if i == |fronts| || Covered(fronts[i], models) then i else FirstCovered(fronts, models, i + 1)
  }

  method FirstContaining(p: Program, models: seq<string>, ghost fronts: seq<seq<State>>) returns (k: nat)
    requires p.Good() && models != [] && fronts == Frontiers(p, Elems(models))
    ensures k == FirstCovered(fronts, Elems(models), 0)
  {
    var e := Begin(p, models);
    var required := Everything(e);
    k := 0;
    while k < |p.sets|
      invariant k <= |p.sets|
      invariant e.Valid() && fresh(e)
      invariant FirstCovered(fronts, Elems(models), 0) == FirstCovered(fronts, Elems(models), k)
    {
      var yes := SetContains(e, p, k, models, required, fronts[k]);
      if yes {
        return;
      }
      k := k + 1;
    }
  }

  /** CanContainAll is exact: it says yes when, and only when, one expanded set of one matrix set
      holds all the models. */
  method CanContainAll(p: Program, models: seq<string>) returns (r: bool)
    requires p.Good()
    ensures r <==> models == [] || FitsSome(p, Elems(models))
  {
    if models == [] {
      return true;
    }
    var k := FirstContaining(p, models, Frontiers(p, Elems(models)));
    r := k < |p.sets|;
    FitsSomeSet(p, Elems(models));
    forall i | 0 <= i < |p.sets|
      ensures Covered(Frontiers(p, Elems(models))[i], Elems(models)) <==> SetFits(p, i, Elems(models))
    {
      ContainsIsFits(p, i, Elems(models));
    }
  }

  lemma FitsSomeSet(p: Program, models: set<string>)
    requires p.Good()
    ensures FitsSome(p, models) <==> exists i :: 0 <= i < |p.sets| && SetFits(p, i, models)
  {
    if i :| 0 <= i < |p.sets| && SetFits(p, i, models) {
      var s :| s in Families(p)[i] && models <= s;
    }
    if FitsSome(p, models) {
      var i, s :| 0 <= i < |p.sets| && s in Families(p)[i] && models <= s;
      assert SetFits(p, i, models);
    }
  }

  /** Set k is the first that has an expanded set holding all the models. */
  ghost predicate FirstFit(p: Program, models: set<string>, k: nat)
    requires p.Good()
  {
    k < |p.sets| && SetFits(p, k, models) && forall j | 0 <= j < k :: !SetFits(p, j, models)
  }

  predicate Called(sets: seq<CompiledSet>, k: nat, setName: string, dsl: string) {
    k < |sets| && setName == sets[k].name && dsl == sets[k].dsl
  }

  /** The name and text of the first set that can hold the models, or nothing when none can. */
  ghost predicate NamesFirst(p: Program, models: set<string>, setName: string, dsl: string)
    requires p.Good()
  {
    || (exists k :: FirstFit(p, models, k) && Called(p.sets, k, setName, dsl))
    || (!FitsSome(p, models) && setName == "" && dsl == "")
  }

  lemma FindContainingNamesFirst(p: Program, models: seq<string>)
    requires p.Good()
    requires models != []
    ensures NamesFirst(p, Elems(models), FindContaining(p, models).0, FindContaining(p, models).1)
  {
    var fronts := Frontiers(p, Elems(models));
    var k := FirstCovered(fronts, Elems(models), 0);
    FoundAt(p.sets, fronts, Elems(models), 0, k);
    FitsSomeSet(p, Elems(models));
    forall i | 0 <= i < |p.sets|
      ensures Covered(fronts[i], Elems(models)) <==> SetFits(p, i, Elems(models))
    {
      ContainsIsFits(p, i, Elems(models));
    }
    assert k < |p.sets| ==> FirstFit(p, Elems(models), k) && Called(p.sets, k, p.sets[k].name, p.sets[k].dsl);
  }

  /** It names the first set with an expanded set that holds all the models. */
  method FindContainingSet(p: Program, models: seq<string>) returns (setName: string, dsl: string)
    requires p.Good()
    ensures if models == [] then setName == "" && dsl == "" else NamesFirst(p, Elems(models), setName, dsl)
    ensures (setName, dsl) == FindContaining(p, models)
  {
    if models == [] {
      return "", "";
    }
    FindContainingNamesFirst(p, models);
    var k := FirstContaining(p, models, Frontiers(p, Elems(models)));
    FoundAt(p.sets, Frontiers(p, Elems(models)), Elems(models), 0, k);
    if k == |p.sets| {
      return "", "";
    }
    return p.sets[k].name, p.sets[k].dsl;
  }

  lemma {:induction false} FoundAt(sets: seq<CompiledSet>, fronts: seq<seq<State>>, models: set<string>, i: nat, k: nat)
    requires i <= k <= |sets| == |fronts|
    requires forall j | i <= j < k :: !Covered(fronts[j], models)
    requires k < |sets| ==> Covered(fronts[k], models)
    ensures FindFrom(sets, fronts, models, i) == if k == |sets| then ("", "") else (sets[k].name, sets[k].dsl)
    decreases k - i
  {
    if i < k {
      FoundAt(sets, fronts, models, i + 1, k);
    }
  }
}
