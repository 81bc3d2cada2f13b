/** The evaluator of internal/matrix/program.go as it runs: slices over shared arrays, a frontier
    filtered in place, and a memo of slices per expression node. */
module MatrixEvaluator {
  import opened Names
  import opened MatrixDsl
  import opened BitMasks
  import opened MatrixProgram
  import opened MatrixFrontier

  /** A state as stored: its mask is a slice of words over the query's bit numbering. */
  datatype Stored = Stored(mask: BitMask, origin: Witness)

  /** A slice: the first len elements of an array that other slices may share. */
  datatype Slice = Slice(data: array<Stored>, len: nat)

  // ---- Masks as sets of models ----

  ghost function Shown(bits: map<string, nat>, mask: BitMask): set<string> {
    set m | m in bits && bits[m] in Bits(mask)
  }

  /** The mask has the query's width and no bit that no model owns. */
  ghost predicate FitsQuery(bits: map<string, nat>, words: nat, mask: BitMask) {
    |mask| == words && forall b: nat | b in Bits(mask) :: b in bits.Values
  }

  lemma SubsetShown(bits: map<string, nat>, words: nat, a: BitMask, b: BitMask)
    requires FitsQuery(bits, words, a) && FitsQuery(bits, words, b)
    ensures Bits(a) <= Bits(b) <==> Shown(bits, a) <= Shown(bits, b)
  {
    if Shown(bits, a) <= Shown(bits, b) {
      forall k: nat | k in Bits(a)
        ensures k in Bits(b)
      {
        assert k in bits.Values;
        var m :| m in bits && bits[m] == k;
        assert m in Shown(bits, a);
      }
    }
  }

  ghost function View(bits: map<string, nat>, s: Stored): State {
    State(Shown(bits, s.mask), s.origin)
  }

  /** The slice stores these states. */
  ghost predicate Holds(bits: map<string, nat>, words: nat, sl: Slice, states: seq<State>)
    reads sl.data
  {
    sl.len <= sl.data.Length && HoldsSeq(bits, words, sl.data[..sl.len], states)
  }

  ghost predicate HoldsSeq(bits: map<string, nat>, words: nat, stored: seq<Stored>, states: seq<State>) {
    && |stored| == |states|
    && forall i | 0 <= i < |stored| :: FitsQuery(bits, words, stored[i].mask) && View(bits, stored[i]) == states[i]
  }

  // ---- addToFrontier ----

  /** Whether some state of the slice already covers the candidate. */
  method IsCovered(bits: map<string, nat>, words: nat, sl: Slice, c: Stored, ghost states: seq<State>) returns (r: bool)
    requires Holds(bits, words, sl, states) && FitsQuery(bits, words, c.mask)
    ensures r <==> Covered(states, Shown(bits, c.mask))
  {
    var i := 0;
    while i < sl.len
      invariant 0 <= i <= sl.len
      invariant forall k :: 0 <= k < i ==> !(Shown(bits, c.mask) <= states[k].mask)
    {
      assert sl.data[..sl.len][i] == sl.data[i];
      var inside := SubsetOf(c.mask, sl.data[i].mask);
      SubsetShown(bits, words, c.mask, sl.data[i].mask);
      if inside {
        assert Shown(bits, c.mask) <= states[i].mask;
        return true;
      }
      i := i + 1;
    }
    return false;
  }

  lemma KeepOutsideStep(states: seq<State>, i: nat, mask: set<string>)
    requires i < |states|
    ensures KeepOutside(states[..i + 1], mask) ==
            if states[i].mask <= mask then KeepOutside(states[..i], mask)
            else KeepOutside(states[..i], mask) + [states[i]]
  {
    assert states[..i + 1][..i] == states[..i];
  }

  lemma HoldsOneMore(bits: map<string, nat>, words: nat, stored: seq<Stored>, states: seq<State>, s: Stored)
    requires HoldsSeq(bits, words, stored, states) && FitsQuery(bits, words, s.mask)
    ensures HoldsSeq(bits, words, stored + [s], states + [View(bits, s)])
  {
  }

  /** An element moves to an earlier place, or stays. */
  method MoveForward(data: array<Stored>, to: nat, from: nat)
    requires to <= from < data.Length
    modifies data
    ensures data[..to + 1] == old(data[..to]) + [old(data[from])]
    ensures forall k | from < k < data.Length :: data[k] == old(data[k])
  {
    data[to] := data[from];
  }

  /** kept := states[:0]; the states outside the candidate move to the front of the same array. */
  method Compact(bits: map<string, nat>, words: nat, sl: Slice, c: Stored, ghost states: seq<State>) returns (kept: nat)
    requires Holds(bits, words, sl, states) && FitsQuery(bits, words, c.mask)
    modifies sl.data
    ensures Holds(bits, words, Slice(sl.data, kept), KeepOutside(states, Shown(bits, c.mask)))
  {
    ghost var all := sl.data[..sl.len];
    ghost var outside := Shown(bits, c.mask);
    kept := 0;
    var i := 0;
    while i < sl.len
      invariant 0 <= kept <= i <= sl.len
      invariant Kept(bits, words, all, states, i, outside, sl.data[..kept])
      invariant forall k :: i <= k < sl.len ==> sl.data[k] == all[k]
    {
      assert sl.data[i] == all[i] && View(bits, all[i]) == states[i];
      var inside := IsInside(bits, words, sl.data[i], states[i], c);
      KeptStep(bits, words, all, states, i, outside, sl.data[..kept]);
      if !inside {
        MoveForward(sl.data, kept, i);
        kept := kept + 1;
      }
      i := i + 1;
    }
    assert states[..|states|] == states;
  }

  /** What was kept of the first i elements. */
  ghost predicate Kept(bits: map<string, nat>, words: nat, all: seq<Stored>, states: seq<State>, i: nat, outside: set<string>, front: seq<Stored>) {
    i <= |all| == |states| && HoldsSeq(bits, words, front, KeepOutside(states[..i], outside))
  }

  lemma KeptStep(bits: map<string, nat>, words: nat, all: seq<Stored>, states: seq<State>, i: nat, outside: set<string>, front: seq<Stored>)
    requires HoldsSeq(bits, words, all, states) && i < |all| && Kept(bits, words, all, states, i, outside, front)
    ensures Kept(bits, words, all, states, i + 1, outside,
                 if states[i].mask <= outside then front else front + [all[i]])
  {
    KeepOutsideStep(states, i, outside);
    HoldsOneMore(bits, words, front, KeepOutside(states[..i], outside), all[i]);
  }

  method IsInside(bits: map<string, nat>, words: nat, s: Stored, ghost state: State, c: Stored) returns (r: bool)
    requires FitsQuery(bits, words, s.mask) && FitsQuery(bits, words, c.mask) && View(bits, s) == state
    ensures r <==> state.mask <= Shown(bits, c.mask)
  {
    SubsetShown(bits, words, s.mask, c.mask);
    r := SubsetOf(s.mask, c.mask);
  }

  /** append: in place when the array has room, in a new array otherwise. */
  method Append(bits: map<string, nat>, words: nat, sl: Slice, c: Stored, ghost states: seq<State>) returns (r: Slice)
    requires Holds(bits, words, sl, states) && FitsQuery(bits, words, c.mask)
    modifies sl.data
    ensures r.data == sl.data || fresh(r.data)
    ensures Holds(bits, words, r, states + [View(bits, c)])
  {
    ghost var front := sl.data[..sl.len];
    if sl.len < sl.data.Length {
      sl.data[sl.len] := c;
      r := Slice(sl.data, sl.len + 1);
    } else {
      var data := new Stored[2 * sl.len + 1];
      forall i | 0 <= i < sl.len {
        data[i] := sl.data[i];
      }
      data[sl.len] := c;
      r := Slice(data, sl.len + 1);
    }
    assert r.data[..r.len] == front + [c];
  }

  method AddCandidate(bits: map<string, nat>, words: nat, sl: Slice, c: Stored, ghost states: seq<State>) returns (r: Slice)
    requires Holds(bits, words, sl, states) && FitsQuery(bits, words, c.mask)
    modifies sl.data
    ensures r.data == sl.data || fresh(r.data)
    ensures Holds(bits, words, r, AddToFrontier(states, View(bits, c)))
  {
    var covered := IsCovered(bits, words, sl, c, states);
    if covered {
      return sl;
    }
    var kept := Compact(bits, words, sl, c, states);
    r := Append(bits, words, Slice(sl.data, kept), c, KeepOutside(states, Shown(bits, c.mask)));
  }

  lemma AddAllOneMore(states: seq<State>, more: seq<State>, s: State)
    ensures AddAll(states, more + [s]) == AddToFrontier(AddAll(states, more), s)
  {
    assert (more + [s])[..|more|] == more;
  }

  // ---- The evaluator ----

  class Evaluator {
    ghost const env: Env
    const roots: map<string, Expr>
    const bits: map<string, nat>
    const words: nat
    var memo: map<Expr, Slice>

    /** The arrays of the memoised slices. */
    ghost var arrays: set<array<Stored>>

    /** Numbers the relevant models in order of first appearance. */
    constructor (ghost env: Env, roots: map<string, Expr>, relevant: seq<string>)
      requires Ordered(env) && roots == env.roots
      ensures this.env == env && Valid()
      ensures bits.Keys == Elems(relevant)
      ensures fresh(arrays)
    {
      this.env, this.roots := env, roots;
      var bits := Number(relevant);
      this.bits := bits;
      this.words := WordsFor(|bits|);
      memo, arrays := map[], {};
    }

    ghost predicate Valid()
      reads this, arrays
    {
      && Ordered(env) && roots == env.roots
      && Registry(bits) && words == WordsFor(|bits|)
      && forall e | e in memo ::
           memo[e].data in arrays && Linked(env, e) && Holds(bits, words, memo[e], Evaluate(env, bits.Keys, e))
    }

    /** The frontier of one node. The arrays of slices that were memoised before the call are not
        in the frame: no memoised slice is ever changed by the in-place filter. */
    method Eval(root: Expr) returns (states: Slice)
      requires Valid() && Linked(env, root)
      modifies this
      ensures Valid() && fresh(arrays - old(arrays))
      ensures states.data in arrays
      ensures Holds(bits, words, states, Evaluate(env, bits.Keys, root))
      decreases Rank(env, root), root, 4
    {
      if root in memo {
        return memo[root];
      }
      states := EvalNew(root);
      Remember(root, states);
    }

    method Remember(root: Expr, states: Slice)
      requires Valid() && Linked(env, root)
      requires Holds(bits, words, states, Evaluate(env, bits.Keys, root))
      modifies this
      ensures Valid() && memo == old(memo)[root := states]
      ensures states.data in arrays && arrays <= old(arrays) + {states.data}
    {
      memo := memo[root := states];
      arrays := arrays + {states.data};
    }

    method EvalNew(root: Expr) returns (states: Slice)
      requires Valid() && Linked(env, root)
      modifies this
      ensures Valid() && fresh(arrays - old(arrays))
      ensures states.data in arrays || fresh(states.data)
      ensures Holds(bits, words, states, Evaluate(env, bits.Keys, root))
      decreases Rank(env, root), root, 3
    {
      match root {
        case Leaf(name) =>
          states := EvalLeaf(root);
        case Ref(name) =>
          RankOfTarget(env, root);
          states := Eval(roots[name]);
        case Or(_) =>
          states := EvalOr(root);
        case And(_) =>
          states := EvalAnd(root);
      }
    }

    method EvalLeaf(root: Expr) returns (states: Slice)
      requires Valid() && Linked(env, root) && root.Leaf?
      ensures fresh(states.data)
      ensures Holds(bits, words, states, Evaluate(env, bits.Keys, root))
    {
      var mask := EmptyMask(words);
      assert Shown(bits, mask) == {};
      if root.name in bits {
        assert bits[root.name] in bits.Values;
        mask := SetBit(mask, bits[root.name]);
      }
      assert Shown(bits, mask) == {root.name} * bits.Keys;
      var data := new Stored[1](_ => Stored(mask, OneModel(root.name)));
      states := Slice(data, 1);
    }

    method EvalOr(root: Expr) returns (states: Slice)
      requires Valid() && Linked(env, root) && root.Or?
      modifies this
      ensures Valid() && fresh(arrays - old(arrays)) && fresh(states.data)
      ensures Holds(bits, words, states, Evaluate(env, bits.Keys, root))
      decreases Rank(env, root), root, 1
    {
      var empty := new Stored[0];
      states := Slice(empty, 0);
      ghost var front := EvaluateOr(env, bits.Keys, root, 0);
      for k := 0 to |root.children|
        invariant Valid() && fresh(arrays - old(arrays))
        invariant fresh(states.data) && states.data !in arrays
        invariant front == EvaluateOr(env, bits.Keys, root, k) && Holds(bits, words, states, front)
      {
        states, front := EvalOrChild(root, k, states, front);
      }
    }

    method EvalOrChild(root: Expr, k: nat, states: Slice, ghost front: seq<State>) returns (r: Slice, ghost next: seq<State>)
      requires Valid() && Linked(env, root) && root.Or? && k < |root.children|
      requires states.data !in arrays
      requires front == EvaluateOr(env, bits.Keys, root, k) && Holds(bits, words, states, front)
      modifies this, states.data
      ensures Valid() && fresh(arrays - old(arrays))
      ensures (r.data == states.data || fresh(r.data)) && r.data !in arrays
      ensures next == EvaluateOr(env, bits.Keys, root, k + 1) && Holds(bits, words, r, next)
      decreases Rank(env, root), root, 0
    {
      RankOfChild(env, root, k);
      ghost var more := Evaluate(env, bits.Keys, root.children[k]);
      var child := Eval(root.children[k]);
      next := AddAll(front, more);
      r := AddSlice(states, child, front, more);
    }

    /** Adds the states of one slice to another, one at a time. */
    method AddSlice(states: Slice, more: Slice, ghost before: seq<State>, ghost added: seq<State>) returns (r: Slice)
      requires Holds(bits, words, states, before) && Holds(bits, words, more, added)
      requires states.data != more.data
      modifies states.data
      ensures r.data == states.data || fresh(r.data)
      ensures Holds(bits, words, r, AddAll(before, added))
    {
      r := states;
      for j := 0 to more.len
        invariant r.data == states.data || fresh(r.data)
        invariant r.data != more.data
        invariant Holds(bits, words, more, added)
        invariant Holds(bits, words, r, AddAll(before, added[..j]))
      {
        assert more.data[..more.len][j] == more.data[j];
        assert added[..j + 1][..j] == added[..j];
        r := AddCandidate(bits, words, r, more.data[j], AddAll(before, added[..j]));
      }
      assert added[..more.len] == added;
    }

    method EvalAnd(root: Expr) returns (states: Slice)
      requires Valid() && Linked(env, root) && root.And?
      modifies this
      ensures Valid() && fresh(arrays - old(arrays)) && fresh(states.data)
      ensures Holds(bits, words, states, Evaluate(env, bits.Keys, root))
      decreases Rank(env, root), root, 2
    {
      var unit := EvalUnit();
      states := EvalAndChildren(root, unit, [State({}, NoWitness)]);
    }

    method EvalAndChildren(root: Expr, unit: Slice, ghost start: seq<State>) returns (states: Slice)
      requires Valid() && Linked(env, root) && root.And?
      requires unit.data !in arrays
      requires start == EvaluateAnd(env, bits.Keys, root, 0) && Holds(bits, words, unit, start)
      modifies this
      ensures Valid() && fresh(arrays - old(arrays))
      ensures states.data == unit.data || fresh(states.data)
      ensures Holds(bits, words, states, EvaluateAnd(env, bits.Keys, root, |root.children|))
      decreases Rank(env, root), root, 1
    {
      states := unit;
      ghost var front := start;
      for k := 0 to |root.children|
        invariant Valid() && fresh(arrays - old(arrays))
        invariant (states.data == unit.data || fresh(states.data)) && states.data !in arrays
        invariant front == EvaluateAnd(env, bits.Keys, root, k) && Holds(bits, words, states, front)
      {
        states, front := EvalAndChild(root, k, states, front);
      }
    }

    method EvalAndChild(root: Expr, k: nat, states: Slice, ghost front: seq<State>) returns (r: Slice, ghost next: seq<State>)
      requires Valid() && Linked(env, root) && root.And? && k < |root.children|
      requires states.data !in arrays
      requires front == EvaluateAnd(env, bits.Keys, root, k) && Holds(bits, words, states, front)
      modifies this
      ensures Valid() && fresh(arrays - old(arrays))
      ensures fresh(r.data) && r.data !in arrays
      ensures next == EvaluateAnd(env, bits.Keys, root, k + 1) && Holds(bits, words, r, next)
      decreases Rank(env, root), root, 0
    {
      RankOfChild(env, root, k);
      ghost var rights := Evaluate(env, bits.Keys, root.children[k]);
      var child := Eval(root.children[k]);
      next := AddAll([], Products(front, rights));
      r := Combine(states, child, front, rights);
    }

    /** The frontier of an empty conjunction. */
    method EvalUnit() returns (states: Slice)
      requires words == WordsFor(|bits|)
      ensures fresh(states.data)
      ensures Holds(bits, words, states, [State({}, NoWitness)])
    {
      var mask := EmptyMask(words);
      assert Shown(bits, mask) == {};
      var data := new Stored[1](_ => Stored(mask, NoWitness));
      states := Slice(data, 1);
    }

    /** Every left state united with every right state, in a new frontier. */
    method Combine(left: Slice, right: Slice, ghost lefts: seq<State>, ghost rights: seq<State>) returns (combined: Slice)
      requires Holds(bits, words, left, lefts) && Holds(bits, words, right, rights)
      ensures fresh(combined.data)
      ensures Holds(bits, words, combined, AddAll([], Products(lefts, rights)))
    {
      var empty := new Stored[0];
      combined := Slice(empty, 0);
      ghost var done: seq<State> := [];
      for i := 0 to left.len
        invariant fresh(combined.data)
        invariant done == Products(lefts[..i], rights)
        invariant Holds(bits, words, combined, AddAll([], done))
      {
        assert left.data[..left.len][i] == left.data[i];
        assert lefts[..i + 1][..i] == lefts[..i];
        combined := CombineRow(combined, left.data[i], lefts[i], right, rights, done);
        done := done + Row(lefts[i], rights);
      }
      assert lefts[..left.len] == lefts;
    }

    method CombineRow(states: Slice, left: Stored, ghost l: State, right: Slice, ghost rights: seq<State>, ghost done: seq<State>)
      returns (combined: Slice)
      requires Holds(bits, words, states, AddAll([], done)) && Holds(bits, words, right, rights)
      requires states.data != right.data
      requires FitsQuery(bits, words, left.mask) && View(bits, left) == l
      modifies states.data
      ensures combined.data == states.data || fresh(combined.data)
      ensures Holds(bits, words, combined, AddAll([], done + Row(l, rights)))
    {
      combined := states;
      ghost var soFar := done;
      for j := 0 to right.len
        invariant combined.data == states.data || fresh(combined.data)
        invariant combined.data != right.data && Holds(bits, words, right, rights)
        invariant soFar == done + Row(l, rights)[..j]
        invariant Holds(bits, words, combined, AddAll([], soFar))
      {
        assert right.data[..right.len][j] == right.data[j];
        assert Row(l, rights)[..j + 1] == Row(l, rights)[..j] + [Unite(l, rights[j])];
        combined := CombineOne(combined, left, l, right.data[j], rights[j], soFar);
        soFar := soFar + [Unite(l, rights[j])];
      }
      assert Row(l, rights)[..right.len] == Row(l, rights);
    }

    method CombineOne(states: Slice, left: Stored, ghost l: State, right: Stored, ghost r: State, ghost soFar: seq<State>)
      returns (combined: Slice)
      requires Holds(bits, words, states, AddAll([], soFar))
      requires FitsQuery(bits, words, left.mask) && View(bits, left) == l
      requires FitsQuery(bits, words, right.mask) && View(bits, right) == r
      modifies states.data
      ensures combined.data == states.data || fresh(combined.data)
      ensures Holds(bits, words, combined, AddAll([], soFar + [Unite(l, r)]))
    {
      var state := UniteStored(left, right);
      AddAllOneMore([], soFar, Unite(l, r));
      combined := AddCandidate(bits, words, states, state, AddAll([], soFar));
    }

    method UniteStored(left: Stored, right: Stored) returns (s: Stored)
      requires FitsQuery(bits, words, left.mask) && FitsQuery(bits, words, right.mask)
      ensures FitsQuery(bits, words, s.mask)
      ensures View(bits, s) == Unite(View(bits, left), View(bits, right))
    {
      var mask := UnionMask(left.mask, right.mask);
      s := Stored(mask, Both(left.origin, right.origin));
      assert Shown(bits, mask) == Shown(bits, left.mask) + Shown(bits, right.mask);
    }
  }

  method Number(models: seq<string>) returns (bits: map<string, nat>)
    ensures Registry(bits) && bits.Keys == Elems(models)
  {
    bits := map[];
    for i := 0 to |models|
      invariant Registry(bits) && bits.Keys == Elems(models[..i])
    {
      assert models[..i + 1] == models[..i] + [models[i]];
      if models[i] !in bits {
        RegistryGrows(bits, models[i]);
        bits := bits[models[i] := |bits|];
      }
    }
    assert models[..|models|] == models;
  }
}
