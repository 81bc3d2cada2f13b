/** Compiling a matrix program (internal/matrix/program.go): every definition is parsed, its
    leaves resolved and its references checked; a depth-first search orders the sets after the
    sets they refer to and rejects circular references. */
module MatrixProgram {
  import opened Names
  import opened MatrixDsl
  import opened BitMasks

  datatype Definition = Definition(name: string, dsl: string)

  type Resolver = string -> Option<string>

  // ---- The reference graph ----

  /** The sets that an expression refers to, in the order a walk meets them, with repeats. */
  function RefList(e: Expr): seq<string>
    decreases e, 0
  {
    match e
    case Leaf(_) => []
    case Ref(name) => [name]
    case And(cs) => RefLists(cs)
    case Or(cs) => RefLists(cs)
  }

  function RefLists(cs: seq<Expr>): seq<string>
    decreases cs, 0
  {
    if cs == [] then [] else RefList(cs[0]) + RefLists(cs[1..])
  }

  ghost predicate HasLeaf(e: Expr, name: string)
    decreases e
  {
    match e
    case Leaf(n) => n == name
    case Ref(_) => false
    case And(cs) => exists c :: c in cs && HasLeaf(c, name)
    case Or(cs) => exists c :: c in cs && HasLeaf(c, name)
  }

  lemma {:induction false} RefListsHas(cs: seq<Expr>, x: string)
    ensures x in RefLists(cs) <==> exists i :: 0 <= i < |cs| && x in RefList(cs[i])
  {
    if cs != [] {
      RefListsHas(cs[1..], x);
      if i :| 0 <= i < |cs| && x in RefList(cs[i]) {
        if i > 0 {
          assert cs[1..][i - 1] == cs[i];
        }
      }
      if x in RefLists(cs[1..]) {
        var i :| 0 <= i < |cs[1..]| && x in RefList(cs[1..][i]);
        assert x in RefList(cs[i + 1]);
      }
    }
  }

  type Graph = map<string, seq<string>>

  /** Every name that a node lists is itself a node. */
  ghost predicate Closed(g: Graph) {
    forall n, d :: n in g && d in g[n] ==> d in g
  }

  ghost predicate IsPath(g: Graph, p: seq<string>) {
    && (forall n | n in p :: n in g)
    && (forall i :: 0 <= i < |p| - 1 ==> p[i] in g && p[i + 1] in g[p[i]])
  }

  /** A circular reference: a path of at least one step that ends where it began. */
  ghost predicate IsCycle(g: Graph, p: seq<string>) {
    |p| >= 2 && IsPath(g, p) && p[0] == p[|p| - 1]
  }

  ghost predicate Acyclic(g: Graph) {
    forall p :: !IsCycle(g, p)
  }

  /** An order that lists names once each, every name after all the names it refers to. */
  ghost predicate Topological(g: Graph, order: seq<string>) {
    && NoDup(order)
    && (forall n | n in order :: n in g)
    && (forall i :: 0 <= i < |order| ==> order[i] in g && forall d | d in g[order[i]] :: d in order[..i])
  }

  function Index(order: seq<string>, n: string): (i: nat)
    requires n in order
    ensures i < |order| && order[i] == n
    ensures n !in order[..i]
  {
    if order[0] == n then 0 else
      assert order == [order[0]] + order[1..];
      var k := Index(order[1..], n);
      assert order[..k + 1] == [order[0]] + order[1..][..k];
      k + 1
  }

  lemma IndexIs(order: seq<string>, i: nat)
    requires NoDup(order) && i < |order|
    ensures Index(order, order[i]) == i
  {
  }

  /** Along a path the position in a topological order falls at every step. */
  lemma {:induction false} PathDescends(g: Graph, order: seq<string>, p: seq<string>, i: nat)
    requires Topological(g, order) && IsPath(g, p) && 0 < i < |p|
    requires forall n | n in p :: n in order
    ensures Index(order, p[i]) < Index(order, p[0])
  {
    var k := Index(order, p[i - 1]);
    assert p[i] in g[p[i - 1]];
    assert p[i] in order[..k];
    var j :| 0 <= j < k && order[j] == p[i];
    IndexIs(order, j);
    if i > 1 {
      PathDescends(g, order, p, i - 1);
    }
  }

  lemma TopologicalMeansAcyclic(g: Graph, order: seq<string>)
    requires Topological(g, order) && Elems(order) == g.Keys
    ensures Acyclic(g)
  {
    forall p | IsCycle(g, p)
      ensures false
    {
      forall n | n in p
        ensures n in order
      {
        assert n in g.Keys;
      }
      PathDescends(g, order, p, |p| - 1);
    }
  }

  // ---- Three-colour depth-first search ----

  datatype Color = White | Gray | Black

  function ColorIn(color: map<string, Color>, n: string): Color {
    if n in color then color[n] else White
  }

  /** stack is the path of sets being visited: exactly the gray ones. The finished sets are
      exactly those in the order, and the order is topological. */
  ghost predicate Searching(g: Graph, color: map<string, Color>, order: seq<string>, stack: seq<string>) {
    && Closed(g)
    && IsPath(g, stack) && NoDup(stack)
    && (forall n :: ColorIn(color, n) == Gray <==> n in stack)
    && (forall n :: ColorIn(color, n) == Black <==> n in order)
    && Topological(g, order)
  }

  ghost function Unvisited(g: Graph, color: map<string, Color>): set<string> {
    set n | n in g && ColorIn(color, n) == White
  }

  lemma Enter(g: Graph, color: map<string, Color>, order: seq<string>, stack: seq<string>, n: string)
    requires Searching(g, color, order, stack) && n in g && ColorIn(color, n) == White
    requires stack != [] ==> n in g[stack[|stack| - 1]]
    ensures Searching(g, color[n := Gray], order, stack + [n])
    ensures Unvisited(g, color[n := Gray]) == Unvisited(g, color) - {n}
    ensures n in Unvisited(g, color)
  {
    var path := stack + [n];
    assert n !in stack && n !in order;
    forall x
      ensures ColorIn(color[n := Gray], x) == Gray <==> x in path
      ensures ColorIn(color[n := Gray], x) == Black <==> x in order
    {
      assert x in path <==> x in stack || x == n;
    }
  }

  lemma Leave(g: Graph, color: map<string, Color>, order: seq<string>, stack: seq<string>, n: string)
    requires Searching(g, color, order, stack + [n])
    requires n in g && forall d | d in g[n] :: d in order
    ensures Searching(g, color[n := Black], order + [n], stack)
    ensures Unvisited(g, color[n := Black]) == Unvisited(g, color)
  {
    var path := stack + [n];
    assert path[|stack|] == n && n in path;
    assert ColorIn(color, n) == Gray && n !in order;
    assert n !in stack by {
      forall i | 0 <= i < |stack|
        ensures stack[i] != n
      {
        assert path[i] == stack[i];
      }
    }
    var next := order + [n];
    forall x
      ensures ColorIn(color[n := Black], x) == Gray <==> x in stack
      ensures ColorIn(color[n := Black], x) == Black <==> x in next
    {
      assert x in path <==> x in stack || x == n;
      assert x in next <==> x in order || x == n;
    }
    assert IsPath(g, stack) && NoDup(stack) by {
      assert forall i :: 0 <= i < |stack| ==> path[i] == stack[i];
      assert forall x | x in stack :: x in path;
    }
    assert Topological(g, next) by {
      assert next[..|order|] == order;
      assert forall j :: 0 <= j < |order| ==> next[..j] == order[..j] && next[j] == order[j];
      assert forall x | x in next :: x in order || x == n;
    }
  }

  /** Meeting a set that is still being visited closes a circle. */
  lemma Closes(g: Graph, stack: seq<string>, n: string, i: nat)
    requires IsPath(g, stack) && i < |stack| && stack[i] == n
    requires n in g[stack[|stack| - 1]]
    ensures IsCycle(g, stack[i..] + [n])
  {
    var p := stack[i..] + [n];
    forall k | 0 <= k < |p| - 1
      ensures p[k] in g && p[k + 1] in g[p[k]]
    {
      assert p[k] == stack[i + k];
      if k + 1 < |p| - 1 {
        assert p[k + 1] == stack[i + k + 1];
      }
    }
    forall x | x in p
      ensures x in g
    {
      assert stack[i] in stack;
      assert x in stack;
    }
  }

  class TopoSort {
    const deps: Graph
    var color: map<string, Color>
    var order: seq<string>

    constructor (deps: Graph)
      requires Closed(deps)
      ensures this.deps == deps && color == map[] && order == []
    {
      this.deps := deps;
      color := map[];
      order := [];
    }

    /** Visits a set; on failure, cycle is a circular reference. */
    method Visit(name: string, ghost stack: seq<string>) returns (ok: bool, ghost cycle: seq<string>)
      requires Searching(deps, color, order, stack) && name in deps
      requires stack != [] ==> name in deps[stack[|stack| - 1]]
      modifies this
      ensures ok ==> Searching(deps, color, order, stack) && name in order
      ensures ok ==> old(order) <= order
      ensures ok ==> Unvisited(deps, color) <= old(Unvisited(deps, color))
      ensures !ok ==> IsCycle(deps, cycle)
      decreases Unvisited(deps, color)
    {
      cycle := [];
      match ColorIn(color, name) {
        case Gray =>
          ghost var i :| 0 <= i < |stack| && stack[i] == name;
          Closes(deps, stack, name, i);
          cycle := stack[i..] + [name];
          return false, cycle;
        case Black =>
          return true, cycle;
        case White =>
      }
      Enter(deps, color, order, stack, name);
      ghost var unvisited := Unvisited(deps, color);
      color := color[name := Gray];
      ghost var path := stack + [name];
      var i := 0;
      while i < |deps[name]|
        invariant 0 <= i <= |deps[name]|
        invariant Searching(deps, color, order, path)
        invariant old(order) <= order
        invariant Unvisited(deps, color) <= unvisited - {name}
        invariant forall j :: 0 <= j < i ==> deps[name][j] in order
      {
        ghost var was := order;
        assert deps[name][i] in deps[name];
        ok, cycle := Visit(deps[name][i], path);
        if !ok {
          return;
        }
        assert forall x :: x in was ==> x in order;
        i := i + 1;
      }
      Leave(deps, color, order, stack, name);
      color := color[name := Black];
      order := order + [name];
      ok := true;
    }
  }

  method TopologicalOrder(names: seq<string>, deps: Graph) returns (r: Option<seq<string>>)
    requires Elems(names) == deps.Keys && Closed(deps)
    ensures r.Some? <==> Acyclic(deps)
    ensures r.Some? ==> Topological(deps, r.value) && Elems(r.value) == deps.Keys
  {
    var sorter := new TopoSort(deps);
    var i := 0;
    while i < |names|
      invariant 0 <= i <= |names|
      invariant Searching(deps, sorter.color, sorter.order, []) && sorter.deps == deps
      invariant forall j :: 0 <= j < i ==> names[j] in sorter.order
    {
      assert names[i] in Elems(names);
      if ColorIn(sorter.color, names[i]) == White {
        ghost var was := sorter.order;
        var ok, cycle := sorter.Visit(names[i], []);
        if !ok {
          return None;
        }
        assert forall x :: x in was ==> x in sorter.order;
      }
      i := i + 1;
    }
    assert Elems(sorter.order) == deps.Keys by {
      forall n | n in deps
        ensures n in sorter.order
      {
        assert n in Elems(names);
      }
    }
    TopologicalMeansAcyclic(deps, sorter.order);
    return Some(sorter.order);
  }

  // ---- Linked programs and what they describe ----

  /** The compiled order of the sets and the linked expression of each. */
  datatype Env = Env(order: seq<string>, roots: map<string, Expr>)

  ghost function RefGraph(roots: map<string, Expr>): Graph {
    map n | n in roots :: RefList(roots[n])
  }

  /** Each set once, and after the sets it refers to. */
  ghost predicate Ordered(env: Env) {
    && Topological(RefGraph(env.roots), env.order)
    && Elems(env.order) == env.roots.Keys
  }

  ghost predicate Linked(env: Env, e: Expr) {
    forall r | r in RefList(e) :: r in env.order
  }

  /** One more than the position of the last set that e refers to. */
  ghost function Rank(env: Env, e: Expr): (k: nat)
    requires Linked(env, e)
    ensures forall r | r in RefList(e) :: Index(env.order, r) < k
    ensures k > 0 ==> exists r | r in RefList(e) :: Index(env.order, r) == k - 1
    ensures k <= |env.order|
  {
    HighestExists(env, RefList(e));
    var k: nat :| Highest(env, RefList(e), k);
    k
  }

  ghost predicate Highest(env: Env, refs: seq<string>, k: nat)
    requires forall r | r in refs :: r in env.order
  {
    && (forall r | r in refs :: Index(env.order, r) < k)
    && (k > 0 ==> exists r | r in refs :: Index(env.order, r) == k - 1)
    && k <= |env.order|
  }

  lemma {:induction false} HighestExists(env: Env, refs: seq<string>)
    requires forall r | r in refs :: r in env.order
    ensures exists k: nat :: Highest(env, refs, k)
  {
    if refs == [] {
      assert Highest(env, refs, 0);
    } else {
      HighestExists(env, refs[1..]);
      var k: nat :| Highest(env, refs[1..], k);
      var here := Index(env.order, refs[0]) + 1;
      assert refs == [refs[0]] + refs[1..];
      assert Highest(env, refs, if here > k then here else k);
    }
  }

  /** A child refers to no more than its parent does; a reference leads to a lower rank. */
  lemma RankOfChild(env: Env, e: Expr, i: nat)
    requires Linked(env, e) && (e.And? || e.Or?) && i < |e.children|
    ensures Linked(env, e.children[i]) && Rank(env, e.children[i]) <= Rank(env, e)
  {
    forall r | r in RefList(e.children[i])
      ensures r in RefList(e)
    {
      RefListsHas(e.children, r);
    }
  }

  lemma RankOfTarget(env: Env, e: Expr)
    requires Ordered(env) && Linked(env, e) && e.Ref?
    ensures e.name in env.roots && Linked(env, env.roots[e.name])
    ensures Rank(env, env.roots[e.name]) < Rank(env, e)
  {
    assert e.name in RefList(e);
    RankOfSet(env, e.name);
  }

  lemma RankOfSet(env: Env, name: string)
    requires Ordered(env) && name in env.order
    ensures name in env.roots && Linked(env, env.roots[name])
    ensures Rank(env, env.roots[name]) <= Index(env.order, name)
  {
    assert name in Elems(env.order);
    var i := Index(env.order, name);
    forall r | r in RefList(env.roots[name])
      ensures r in env.order && Index(env.order, r) < i
    {
      assert r in RefGraph(env.roots)[env.order[i]];
      var j :| 0 <= j < i && env.order[j] == r;
      IndexIs(env.order, j);
    }
  }

  /** The models that can occur in the sets an expression describes. */
  ghost function Mentions(env: Env, e: Expr): set<string>
    requires Ordered(env) && Linked(env, e)
    decreases Rank(env, e), e, 1
  {
    match e
    case Leaf(name) => {name}
    case Ref(name) =>
      RankOfTarget(env, e);
      Mentions(env, env.roots[name])
    case _ => MentionsUpTo(env, e, |e.children|)
  }

  ghost function MentionsUpTo(env: Env, e: Expr, k: nat): set<string>
    requires Ordered(env) && Linked(env, e) && (e.And? || e.Or?) && k <= |e.children|
    decreases Rank(env, e), e, 0, k
  {
    if k == 0 then {}
    else
      RankOfChild(env, e, k - 1);
      MentionsUpTo(env, e, k - 1) + Mentions(env, e.children[k - 1])
  }

  /** Every way to choose one set of each family, united. */
  ghost function Cross(xs: set<set<string>>, ys: set<set<string>>): set<set<string>> {
    set x, y | x in xs && y in ys :: x + y
  }

  /** The model sets that an expression describes, multiplied out in full: a leaf contributes
      one model, | the sets of every alternative, & the union of one set of each operand, and a
      reference the sets of its target. */
  ghost function Expand(env: Env, e: Expr): set<set<string>>
    requires Ordered(env) && Linked(env, e)
    decreases Rank(env, e), e, 1
  {
    match e
    case Leaf(name) => {{name}}
    case Ref(name) =>
      RankOfTarget(env, e);
      Expand(env, env.roots[name])
    case Or(cs) => ExpandOr(env, e, |cs|)
    case And(cs) => ExpandAnd(env, e, |cs|)
  }

  ghost function ExpandOr(env: Env, e: Expr, k: nat): set<set<string>>
    requires Ordered(env) && Linked(env, e) && e.Or? && k <= |e.children|
    decreases Rank(env, e), e, 0, k
  {
    if k == 0 then {}
    else
      RankOfChild(env, e, k - 1);
      ExpandOr(env, e, k - 1) + Expand(env, e.children[k - 1])
  }

  ghost function ExpandAnd(env: Env, e: Expr, k: nat): set<set<string>>
    requires Ordered(env) && Linked(env, e) && e.And? && k <= |e.children|
    decreases Rank(env, e), e, 0, k
  {
    if k == 0 then {{}}
    else
      RankOfChild(env, e, k - 1);
      Cross(ExpandAnd(env, e, k - 1), Expand(env, e.children[k - 1]))
  }

  /** Whatever is in an expanded set is mentioned by the expression. */
  lemma {:induction false} ExpandedIsMentioned(env: Env, e: Expr, s: set<string>)
    requires Ordered(env) && Linked(env, e) && s in Expand(env, e)
    ensures s <= Mentions(env, e)
    decreases Rank(env, e), e, 1
  {
    match e
    case Leaf(_) =>
    case Ref(name) =>
      RankOfTarget(env, e);
      ExpandedIsMentioned(env, env.roots[name], s);
    case Or(cs) =>
      ExpandedOrIsMentioned(env, e, |cs|, s);
    case And(cs) =>
      ExpandedAndIsMentioned(env, e, |cs|, s);
  }

  lemma {:induction false} ExpandedOrIsMentioned(env: Env, e: Expr, k: nat, s: set<string>)
    requires Ordered(env) && Linked(env, e) && e.Or? && k <= |e.children| && s in ExpandOr(env, e, k)
    ensures s <= MentionsUpTo(env, e, k)
    decreases Rank(env, e), e, 0, k
  {
    RankOfChild(env, e, k - 1);
    if s in ExpandOr(env, e, k - 1) {
      ExpandedOrIsMentioned(env, e, k - 1, s);
    } else {
      ExpandedIsMentioned(env, e.children[k - 1], s);
    }
  }

  lemma {:induction false} ExpandedAndIsMentioned(env: Env, e: Expr, k: nat, s: set<string>)
    requires Ordered(env) && Linked(env, e) && e.And? && k <= |e.children| && s in ExpandAnd(env, e, k)
    ensures s <= MentionsUpTo(env, e, k)
    decreases Rank(env, e), e, 0, k
  {
    if k > 0 {
      RankOfChild(env, e, k - 1);
      var x, y :| x in ExpandAnd(env, e, k - 1) && y in Expand(env, e.children[k - 1]) && s == x + y;
      ExpandedAndIsMentioned(env, e, k - 1, x);
      ExpandedIsMentioned(env, e.children[k - 1], y);
    }
  }

  // ---- What the expansion means ----

  /** A leaf is one model, and a reference is its target. */
  lemma ExpandOfLeafAndRef(env: Env, e: Expr)
    requires Ordered(env) && Linked(env, e)
    ensures e.Leaf? ==> Expand(env, e) == {{e.name}}
    ensures e.Ref? ==>
              e.name in env.roots && Linked(env, env.roots[e.name]) && Expand(env, e) == Expand(env, env.roots[e.name])
  {
    if e.Ref? {
      RankOfTarget(env, e);
    }
  }

  lemma ChildrenLinked(env: Env, e: Expr)
    requires Linked(env, e) && (e.And? || e.Or?)
    ensures forall i | 0 <= i < |e.children| :: Linked(env, e.children[i])
  {
    forall i | 0 <= i < |e.children|
      ensures Linked(env, e.children[i])
    {
      RankOfChild(env, e, i);
    }
  }

  /** A set of a disjunction is a set of one alternative. */
  lemma ExpandOfOr(env: Env, e: Expr, s: set<string>)
    requires Ordered(env) && Linked(env, e) && e.Or?
    ensures forall i | 0 <= i < |e.children| :: Linked(env, e.children[i])
    ensures s in Expand(env, e) <==> exists i :: 0 <= i < |e.children| && s in Expand(env, e.children[i])
  {
    ChildrenLinked(env, e);
    OrUpTo(env, e, |e.children|, s);
  }

  lemma {:induction false} OrUpTo(env: Env, e: Expr, k: nat, s: set<string>)
    requires Ordered(env) && Linked(env, e) && e.Or? && k <= |e.children|
    requires forall i | 0 <= i < |e.children| :: Linked(env, e.children[i])
    ensures s in ExpandOr(env, e, k) <==> exists i :: 0 <= i < k && s in Expand(env, e.children[i])
  {
    if k > 0 {
      OrUpTo(env, e, k - 1, s);
    }
  }

  /** The set unites the parts. */
  ghost predicate Unites(s: set<string>, parts: seq<set<string>>) {
    forall m :: m in s <==> exists i :: 0 <= i < |parts| && m in parts[i]
  }

  /** One set of each of the first k operands. */
  ghost predicate Picks(env: Env, cs: seq<Expr>, k: nat, parts: seq<set<string>>)
    requires Ordered(env) && k <= |cs| && forall i | 0 <= i < |cs| :: Linked(env, cs[i])
  {
    |parts| == k && forall i | 0 <= i < k :: parts[i] in Expand(env, cs[i])
  }

  /** A set of a conjunction unites one set of each operand. */
  lemma ExpandOfAnd(env: Env, e: Expr, s: set<string>)
    requires Ordered(env) && Linked(env, e) && e.And?
    ensures forall i | 0 <= i < |e.children| :: Linked(env, e.children[i])
    ensures s in Expand(env, e) <==> exists parts :: Picks(env, e.children, |e.children|, parts) && Unites(s, parts)
  {
    ChildrenLinked(env, e);
    if s in Expand(env, e) {
      var parts := PartsOf(env, e, |e.children|, s);
    }
    if parts :| Picks(env, e.children, |e.children|, parts) && Unites(s, parts) {
      PartsMakeSets(env, e, |e.children|, parts, s);
    }
  }

  lemma {:induction false} PartsOf(env: Env, e: Expr, k: nat, s: set<string>) returns (parts: seq<set<string>>)
    requires Ordered(env) && Linked(env, e) && e.And? && k <= |e.children|
    requires forall i | 0 <= i < |e.children| :: Linked(env, e.children[i])
    requires s in ExpandAnd(env, e, k)
    ensures Picks(env, e.children, k, parts) && Unites(s, parts)
  {
    if k == 0 {
      parts := [];
    } else {
      var x, y :| x in ExpandAnd(env, e, k - 1) && y in Expand(env, e.children[k - 1]) && s == x + y;
      var init := PartsOf(env, e, k - 1, x);
      parts := init + [y];
      UnitesSnoc(x, init, y);
    }
  }

  lemma UnitesSnoc(x: set<string>, parts: seq<set<string>>, y: set<string>)
    requires Unites(x, parts)
    ensures Unites(x + y, parts + [y])
  {
    var more := parts + [y];
    forall m
      ensures m in x + y <==> exists i :: 0 <= i < |more| && m in more[i]
    {
      if m in x {
        var i :| 0 <= i < |parts| && m in parts[i];
        assert more[i] == parts[i];
      }
      if m in y {
        assert more[|parts|] == y;
      }
      if i :| 0 <= i < |more| && m in more[i] {
        assert i < |parts| ==> more[i] == parts[i] && m in x;
      }
    }
  }

  lemma {:induction false} PartsMakeSets(env: Env, e: Expr, k: nat, parts: seq<set<string>>, s: set<string>)
    requires Ordered(env) && Linked(env, e) && e.And? && k <= |e.children|
    requires forall i | 0 <= i < |e.children| :: Linked(env, e.children[i])
    requires Picks(env, e.children, k, parts) && Unites(s, parts)
    ensures s in ExpandAnd(env, e, k)
  {
    if k == 0 {
      assert s == {};
    } else {
      var init, y := parts[..k - 1], parts[k - 1];
      var x := set m, i | 0 <= i < |init| && m in init[i] :: m;
      assert Unites(x, init);
      PartsMakeSets(env, e, k - 1, init, x);
      UnitesSnoc(x, init, y);
      assert parts == init + [y];
      assert s == x + y;
    }
  }

  /** Every operator has operands. */
  ghost predicate NoneEmpty(e: Expr)
    decreases e
  {
    e.And? || e.Or? ==> e.children != [] && forall c | c in e.children :: NoneEmpty(c)
  }

  ghost predicate InSome(family: set<set<string>>, m: string) {
    exists s :: s in family && m in s
  }

  /** Where no operator is without operands, there are sets, and each model that is mentioned is in
      one of them. */
  lemma {:induction false} MentionedIsExpanded(env: Env, e: Expr)
    requires Ordered(env) && Linked(env, e) && NoneEmpty(e) && forall n | n in env.roots :: NoneEmpty(env.roots[n])
    ensures Expand(env, e) != {}
    ensures Covers(Expand(env, e), Mentions(env, e))
    decreases Rank(env, e), e, 1
  {
    match e
    case Leaf(name) => assert {name} in Expand(env, e);
    case Ref(name) =>
      RankOfTarget(env, e);
      MentionedIsExpanded(env, env.roots[name]);
    case Or(cs) => MentionedByOr(env, e, |cs|);
    case And(cs) => MentionedByAnd(env, e, |cs|);
  }

  lemma UpToNext(env: Env, e: Expr, k: nat)
    requires Ordered(env) && Linked(env, e) && (e.And? || e.Or?) && 0 < k <= |e.children|
    ensures Linked(env, e.children[k - 1])
    ensures MentionsUpTo(env, e, k) == MentionsUpTo(env, e, k - 1) + Mentions(env, e.children[k - 1])
    ensures e.And? ==> ExpandAnd(env, e, k) == Cross(ExpandAnd(env, e, k - 1), Expand(env, e.children[k - 1]))
    ensures e.Or? ==> ExpandOr(env, e, k) == ExpandOr(env, e, k - 1) + Expand(env, e.children[k - 1])
  {
    RankOfChild(env, e, k - 1);
  }

  lemma {:induction false} MentionedByOr(env: Env, e: Expr, k: nat)
    requires Ordered(env) && Linked(env, e) && NoneEmpty(e) && forall n | n in env.roots :: NoneEmpty(env.roots[n])
    requires e.Or? && k <= |e.children|
    ensures k > 0 ==> ExpandOr(env, e, k) != {}
    ensures Covers(ExpandOr(env, e, k), MentionsUpTo(env, e, k))
    decreases Rank(env, e), e, 0, k
  {
    if k > 0 {
      RankOfChild(env, e, k - 1);
      assert e.children[k - 1] in e.children;
      MentionedByOr(env, e, k - 1);
      var child := e.children[k - 1];
      MentionedIsExpanded(env, child);
      UnionCovers(ExpandOr(env, e, k - 1), Expand(env, child), MentionsUpTo(env, e, k - 1), Mentions(env, child));
      UpToNext(env, e, k);
    }
  }

  lemma {:induction false} MentionedByAnd(env: Env, e: Expr, k: nat)
    requires Ordered(env) && Linked(env, e) && NoneEmpty(e) && forall n | n in env.roots :: NoneEmpty(env.roots[n])
    requires e.And? && k <= |e.children|
    ensures ExpandAnd(env, e, k) != {}
    ensures Covers(ExpandAnd(env, e, k), MentionsUpTo(env, e, k))
    decreases Rank(env, e), e, 0, k
  {
    if k == 0 {
      assert {} in ExpandAnd(env, e, 0);
    } else {
      RankOfChild(env, e, k - 1);
      assert e.children[k - 1] in e.children;
      MentionedByAnd(env, e, k - 1);
      MentionedIsExpanded(env, e.children[k - 1]);
      var child := e.children[k - 1];
      CrossCovers(ExpandAnd(env, e, k - 1), Expand(env, child), MentionsUpTo(env, e, k - 1), Mentions(env, child));
      UpToNext(env, e, k);
    }
  }

  lemma CrossHas(xs: set<set<string>>, ys: set<set<string>>, x: set<string>, y: set<string>)
    requires x in xs && y in ys
    ensures x + y in Cross(xs, ys)
  {
  }

  /** Every one of these models is in some set. */
  ghost predicate Covers(family: set<set<string>>, models: set<string>) {
    forall m | m in models :: InSome(family, m)
  }

  lemma CrossCovers(xs: set<set<string>>, ys: set<set<string>>, a: set<string>, b: set<string>)
    requires xs != {} && ys != {} && Covers(xs, a) && Covers(ys, b)
    ensures Cross(xs, ys) != {} && Covers(Cross(xs, ys), a + b)
  {
    CrossKeeps(xs, ys, "");
    forall m | m in a + b
      ensures InSome(Cross(xs, ys), m)
    {
      CrossKeeps(xs, ys, m);
    }
  }

  lemma UnionCovers(xs: set<set<string>>, ys: set<set<string>>, a: set<string>, b: set<string>)
    requires Covers(xs, a) && Covers(ys, b)
    ensures Covers(xs + ys, a + b)
  {
    forall m | m in a + b
      ensures InSome(xs + ys, m)
    {
      var s :| (s in xs || s in ys) && m in s;
    }
  }

  /** With a set on either side, whatever is in some set of one side is in some set of the cross. */
  lemma CrossKeeps(xs: set<set<string>>, ys: set<set<string>>, m: string)
    requires xs != {} && ys != {}
    ensures Cross(xs, ys) != {}
    ensures InSome(xs, m) || InSome(ys, m) ==> InSome(Cross(xs, ys), m)
  {
    var x0, y0 :| x0 in xs && y0 in ys;
    CrossHas(xs, ys, x0, y0);
    if InSome(xs, m) {
      var x :| x in xs && m in x;
      CrossHas(xs, ys, x, y0);
    } else if InSome(ys, m) {
      var y :| y in ys && m in y;
      CrossHas(xs, ys, x0, y);
    }
  }

  // ---- The compiled program ----

  datatype CompiledSet = CompiledSet(name: string, dsl: string, root: Expr, support: BitMask)

  datatype Program = Program(sets: seq<CompiledSet>, roots: map<string, Expr>, modelBits: map<string, nat>, words: nat) {
    ghost function Linkage(): Env {
      Env(seq(|sets|, i requires 0 <= i < |sets| => sets[i].name), roots)
    }

    /** What Compile guarantees about its result. */
    ghost predicate Good() {
      && Ordered(Linkage())
      && Registry(modelBits) && words == WordsFor(|modelBits|)
      && (forall i | 0 <= i < |sets| :: GoodSet(sets[i]))
    }

    ghost predicate GoodSet(s: CompiledSet)
      requires Ordered(Linkage())
    {
      && s.name in roots && s.root == roots[s.name] && Linked(Linkage(), s.root)
      && |s.support| == words
      && Supports(modelBits, s.support, Mentions(Linkage(), s.root))
    }
  }

  /** The registry numbers its models 0, 1, 2, ... */
  ghost predicate Registry(bits: map<string, nat>) {
    && (forall b: nat :: b in bits.Values <==> b < |bits|)
    && (forall m, n | m in bits && n in bits && bits[m] == bits[n] :: m == n)
  }

  /** A mask holds exactly the bits of some registered models. */
  ghost predicate Supports(bits: map<string, nat>, mask: BitMask, models: set<string>) {
    && models <= bits.Keys
    && (forall m | m in bits :: bits[m] in Bits(mask) <==> m in models)
  }

  lemma OneMoreKey(bits: map<string, nat>, m: string, b: nat)
    requires m !in bits
    ensures |bits[m := b]| == |bits| + 1
  {
    var next := bits[m := b];
    assert next.Keys == bits.Keys + {m};
    assert |next.Keys| == |bits.Keys| + 1;
    assert |next| == |next.Keys| && |bits| == |bits.Keys|;
  }

  lemma RegistryGrows(bits: map<string, nat>, m: string)
    requires Registry(bits) && m !in bits
    ensures Registry(bits[m := |bits|]) && |bits[m := |bits|]| == |bits| + 1
  {
    var next := bits[m := |bits|];
    OneMoreKey(bits, m, |bits|);
    assert next[m] == |bits| && forall n | n in bits :: next[n] == bits[n];
    forall b: nat
      ensures b in next.Values <==> b < |next|
    {
      if b in bits.Values {
        var n :| n in bits && bits[n] == b;
        assert next[n] == b;
      }
    }
    forall n | n in bits
      ensures bits[n] < |bits|
    {
      assert bits[n] in bits.Values;
    }
  }
}
