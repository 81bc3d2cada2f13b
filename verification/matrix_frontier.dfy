/** Projection onto a query (evaluate and addToFrontier, internal/matrix/program.go), as
    functions, and why the projected frontier stands for the full expansion.

    A projected state is the part of a model set that the query can see, with a witness from
    which the whole set can be rebuilt. States inside another state are pruned as they appear. */
module MatrixFrontier {
  import opened MatrixDsl
  import opened MatrixProgram

  datatype Witness =
    | NoWitness
    | OneModel(model: string)
    | Both(left: Witness, right: Witness)

  /** The model set a witness stands for. */
  function Models(w: Witness): set<string> {
    match w
    case NoWitness => {}
    case OneModel(model) => {model}
    case Both(left, right) => Models(left) + Models(right)
  }

  datatype State = State(mask: set<string>, origin: Witness)

  // ---- The frontier ----

  predicate Covered(states: seq<State>, mask: set<string>) {
    exists i :: 0 <= i < |states| && mask <= states[i].mask
  }

  /** The states that are not inside mask, in order. */
  function KeepOutside(states: seq<State>, mask: set<string>): seq<State> {
    if states == [] then []
    else
      var kept := KeepOutside(states[..|states| - 1], mask);
      var last := states[|states| - 1];
      if last.mask <= mask then kept else kept + [last]
  }

  function AddToFrontier(states: seq<State>, candidate: State): seq<State> {
    if Covered(states, candidate.mask) then states
    else KeepOutside(states, candidate.mask) + [candidate]
  }

  function AddAll(states: seq<State>, more: seq<State>): seq<State> {
    if more == [] then states
    else AddToFrontier(AddAll(states, more[..|more| - 1]), more[|more| - 1])
  }

  ghost predicate Antichain(states: seq<State>) {
    forall i, j :: 0 <= i < |states| && 0 <= j < |states| && i != j ==> !(states[i].mask <= states[j].mask)
  }

  lemma {:induction false} KeepOutsideFilters(states: seq<State>, mask: set<string>)
    ensures forall s :: s in KeepOutside(states, mask) <==> s in states && !(s.mask <= mask)
    ensures Antichain(states) ==> Antichain(KeepOutside(states, mask))
  {
    if states != [] {
      var init := states[..|states| - 1];
      var last := states[|states| - 1];
      KeepOutsideFilters(init, mask);
      var kept := KeepOutside(init, mask);
      assert states == init + [last];
      if Antichain(states) && !(last.mask <= mask) {
        assert forall i :: 0 <= i < |init| ==> states[i] == init[i];
        forall i | 0 <= i < |kept|
          ensures !(kept[i].mask <= last.mask) && !(last.mask <= kept[i].mask)
        {
          assert kept[i] in kept && kept[i] in init;
          var k :| 0 <= k < |init| && init[k] == kept[i];
          assert states[k] == kept[i];
        }
      }
    }
  }

  /** Adding a candidate invents nothing, covers what was covered and the candidate, and keeps
      the states incomparable. */
  lemma AddToFrontierCovers(states: seq<State>, c: State)
    ensures forall s | s in AddToFrontier(states, c) :: s in states || s == c
    ensures forall m :: Covered(states, m) || m <= c.mask ==> Covered(AddToFrontier(states, c), m)
    ensures Antichain(states) ==> Antichain(AddToFrontier(states, c))
  {
    var next := AddToFrontier(states, c);
    KeepOutsideFilters(states, c.mask);
    if Covered(states, c.mask) {
      var i :| 0 <= i < |states| && c.mask <= states[i].mask;
      assert forall m :: m <= c.mask ==> m <= states[i].mask;
    } else {
      var kept := KeepOutside(states, c.mask);
      assert next[|kept|] == c;
      forall m | Covered(states, m)
        ensures Covered(next, m)
      {
        var i :| 0 <= i < |states| && m <= states[i].mask;
        if states[i].mask <= c.mask {
          assert m <= next[|kept|].mask;
        } else {
          assert states[i] in kept;
          var k :| 0 <= k < |kept| && kept[k] == states[i];
          assert m <= next[k].mask;
        }
      }
      if Antichain(states) {
        forall i | 0 <= i < |kept|
          ensures !(kept[i].mask <= c.mask) && !(c.mask <= kept[i].mask)
        {
          assert kept[i] in kept;
          assert kept[i] in states;
        }
      }
    }
  }

  lemma {:induction false} AddAllCovers(states: seq<State>, more: seq<State>)
    ensures forall s | s in AddAll(states, more) :: s in states || s in more
    ensures forall m :: Covered(states, m) || Covered(more, m) ==> Covered(AddAll(states, more), m)
    ensures Antichain(states) ==> Antichain(AddAll(states, more))
  {
    if more != [] {
      var init := more[..|more| - 1];
      var last := more[|more| - 1];
      AddAllCovers(states, init);
      AddToFrontierCovers(AddAll(states, init), last);
      assert more == init + [last];
      forall m | Covered(more, m)
        ensures Covered(init, m) || m <= last.mask
      {
        var i :| 0 <= i < |more| && m <= more[i].mask;
        if i < |init| {
          assert m <= init[i].mask;
        }
      }
    }
  }

  // ---- Evaluation ----

  /** The states of an operand, each united with one left state. */
  function Row(left: State, rights: seq<State>): (r: seq<State>)
    ensures |r| == |rights|
    ensures forall j :: 0 <= j < |r| ==> r[j] == Unite(left, rights[j])
  {
    seq(|rights|, j requires 0 <= j < |rights| => Unite(left, rights[j]))
  }

  function Unite(left: State, right: State): State {
    State(left.mask + right.mask, Both(left.origin, right.origin))
  }

  /** All pairs, row by row. */
  function Products(lefts: seq<State>, rights: seq<State>): seq<State> {
    if lefts == [] then []
    else Products(lefts[..|lefts| - 1], rights) + Row(lefts[|lefts| - 1], rights)
  }

  lemma {:induction false} ProductsAll(lefts: seq<State>, rights: seq<State>)
    ensures forall s | s in Products(lefts, rights) ::
              exists l, r :: l in lefts && r in rights && s == Unite(l, r)
    ensures forall l, r | l in lefts && r in rights :: Unite(l, r) in Products(lefts, rights)
  {
    if lefts != [] {
      var init := lefts[..|lefts| - 1];
      var last := lefts[|lefts| - 1];
      ProductsAll(init, rights);
      assert lefts == init + [last];
      forall l, r | l in lefts && r in rights
        ensures Unite(l, r) in Products(lefts, rights)
      {
        if l in init {
          assert Unite(l, r) in Products(init, rights);
        } else {
          var j :| 0 <= j < |rights| && rights[j] == r;
          assert Row(last, rights)[j] == Unite(l, r);
        }
      }
      forall s | s in Products(lefts, rights)
        ensures exists l, r :: l in lefts && r in rights && s == Unite(l, r)
      {
        if s in Products(init, rights) {
          var l, r :| l in init && r in rights && s == Unite(l, r);
          assert l in lefts;
        } else {
          var j :| 0 <= j < |rights| && Row(last, rights)[j] == s;
          assert last in lefts && rights[j] in rights && s == Unite(last, rights[j]);
        }
      }
    }
  }

  /** The frontier of an expression for a query about the models in `relevant`. */
  ghost function Evaluate(env: Env, relevant: set<string>, e: Expr): seq<State>
    requires Ordered(env) && Linked(env, e)
    decreases Rank(env, e), e, 1
  {
    match e
    case Leaf(name) => [State({name} * relevant, OneModel(name))]
    case Ref(name) =>
      RankOfTarget(env, e);
      Evaluate(env, relevant, env.roots[name])
    case Or(cs) => EvaluateOr(env, relevant, e, |cs|)
    case And(cs) => EvaluateAnd(env, relevant, e, |cs|)
  }

  ghost function EvaluateOr(env: Env, relevant: set<string>, e: Expr, k: nat): seq<State>
    requires Ordered(env) && Linked(env, e) && e.Or? && k <= |e.children|
    decreases Rank(env, e), e, 0, k
  {
    if k == 0 then []
    else
      RankOfChild(env, e, k - 1);
      AddAll(EvaluateOr(env, relevant, e, k - 1), Evaluate(env, relevant, e.children[k - 1]))
  }

  ghost function EvaluateAnd(env: Env, relevant: set<string>, e: Expr, k: nat): seq<State>
    requires Ordered(env) && Linked(env, e) && e.And? && k <= |e.children|
    decreases Rank(env, e), e, 0, k
  {
    if k == 0 then [State({}, NoWitness)]
    else
      RankOfChild(env, e, k - 1);
      AddAll([], Products(EvaluateAnd(env, relevant, e, k - 1), Evaluate(env, relevant, e.children[k - 1])))
  }

  // ---- The frontier stands for the expansion ----

  /** Each state is the projection of an expanded set, which its witness rebuilds; each expanded
      set is covered by a state; and no state is inside another. */
  ghost predicate Represents(states: seq<State>, relevant: set<string>, family: set<set<string>>) {
    && (forall s | s in states :: Models(s.origin) in family && s.mask == Models(s.origin) * relevant)
    && (forall x | x in family :: Covered(states, x * relevant))
    && Antichain(states)
  }

  lemma RepresentsUnion(xs: seq<State>, ys: seq<State>, relevant: set<string>, f: set<set<string>>, g: set<set<string>>)
    requires Represents(xs, relevant, f) && Represents(ys, relevant, g)
    ensures Represents(AddAll(xs, ys), relevant, f + g)
  {
    AddAllCovers(xs, ys);
  }

  lemma RepresentsCross(xs: seq<State>, ys: seq<State>, relevant: set<string>, f: set<set<string>>, g: set<set<string>>)
    requires Represents(xs, relevant, f) && Represents(ys, relevant, g)
    ensures Represents(AddAll([], Products(xs, ys)), relevant, Cross(f, g))
  {
    var all := Products(xs, ys);
    var states := AddAll([], all);
    AddAllCovers([], all);
    ProductsAll(xs, ys);
    forall s | s in states
      ensures Models(s.origin) in Cross(f, g) && s.mask == Models(s.origin) * relevant
    {
      var l, r :| l in xs && r in ys && s == Unite(l, r);
      assert Models(s.origin) == Models(l.origin) + Models(r.origin);
    }
    forall z | z in Cross(f, g)
      ensures Covered(states, z * relevant)
    {
      var x, y :| x in f && y in g && z == x + y;
      CoveredByUnion(xs, ys, relevant, x, y);
    }
  }

  lemma CoveredByUnion(xs: seq<State>, ys: seq<State>, relevant: set<string>, x: set<string>, y: set<string>)
    requires Covered(xs, x * relevant) && Covered(ys, y * relevant)
    ensures Covered(Products(xs, ys), (x + y) * relevant)
  {
    var i :| 0 <= i < |xs| && x * relevant <= xs[i].mask;
    var j :| 0 <= j < |ys| && y * relevant <= ys[j].mask;
    ProductsAll(xs, ys);
    var u := Unite(xs[i], ys[j]);
    assert u in Products(xs, ys);
    var k :| 0 <= k < |Products(xs, ys)| && Products(xs, ys)[k] == u;
    assert (x + y) * relevant <= Products(xs, ys)[k].mask;
  }

  /** The frontier of any expression represents its full expansion. */
  lemma {:induction false} FrontierRepresents(env: Env, relevant: set<string>, e: Expr)
    requires Ordered(env) && Linked(env, e)
    ensures Represents(Evaluate(env, relevant, e), relevant, Expand(env, e))
    decreases Rank(env, e), e, 1
  {
    match e
    case Leaf(name) =>
      var states := Evaluate(env, relevant, e);
      assert states[0].mask == {name} * relevant;
    case Ref(name) =>
      RankOfTarget(env, e);
      FrontierRepresents(env, relevant, env.roots[name]);
    case Or(cs) =>
      FrontierRepresentsOr(env, relevant, e, |cs|);
    case And(cs) =>
      FrontierRepresentsAnd(env, relevant, e, |cs|);
  }

  lemma {:induction false} FrontierRepresentsOr(env: Env, relevant: set<string>, e: Expr, k: nat)
    requires Ordered(env) && Linked(env, e) && e.Or? && k <= |e.children|
    ensures Represents(EvaluateOr(env, relevant, e, k), relevant, ExpandOr(env, e, k))
    decreases Rank(env, e), e, 0, k
  {
    if k > 0 {
      RankOfChild(env, e, k - 1);
      FrontierRepresentsOr(env, relevant, e, k - 1);
      FrontierRepresents(env, relevant, e.children[k - 1]);
      RepresentsUnion(EvaluateOr(env, relevant, e, k - 1), Evaluate(env, relevant, e.children[k - 1]), relevant,
                      ExpandOr(env, e, k - 1), Expand(env, e.children[k - 1]));
    }
  }

  lemma {:induction false} FrontierRepresentsAnd(env: Env, relevant: set<string>, e: Expr, k: nat)
    requires Ordered(env) && Linked(env, e) && e.And? && k <= |e.children|
    ensures Represents(EvaluateAnd(env, relevant, e, k), relevant, ExpandAnd(env, e, k))
    decreases Rank(env, e), e, 0, k
  {
    if k == 0 {
      var start := EvaluateAnd(env, relevant, e, 0);
      assert start[0].mask == {};
      var none: set<string> := {};
      assert none * relevant == none;
    } else {
      RankOfChild(env, e, k - 1);
      FrontierRepresentsAnd(env, relevant, e, k - 1);
      FrontierRepresents(env, relevant, e.children[k - 1]);
      RepresentsCross(EvaluateAnd(env, relevant, e, k - 1), Evaluate(env, relevant, e.children[k - 1]), relevant,
                      ExpandAnd(env, e, k - 1), Expand(env, e.children[k - 1]));
    }
  }
}
