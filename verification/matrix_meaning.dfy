/** What a compiled program means, in terms of the texts it was compiled from: identifiers stand
    for models, references for other texts, and nothing else is added or lost. */
module MatrixMeaning {
  import opened Names
  import opened MatrixDsl
  import opened MatrixProgram
  import opened MatrixCompile

  // ---- Leaves and references ----

  /** A path of references leads from set n to one with this leaf. */
  ghost predicate Leads(roots: map<string, Expr>, path: seq<string>, n: string, name: string) {
    && path != [] && path[0] == n && IsPath(RefGraph(roots), path)
    && path[|path| - 1] in roots && HasLeaf(roots[path[|path| - 1]], name)
  }

  ghost predicate Reaches(roots: map<string, Expr>, n: string, name: string) {
    exists path :: Leads(roots, path, n, name)
  }

  lemma ReachStep(roots: map<string, Expr>, n: string, name: string)
    requires n in roots
    ensures Reaches(roots, n, name) <==>
            HasLeaf(roots[n], name) || exists r :: r in RefList(roots[n]) && Reaches(roots, r, name)
  {
    if path :| Leads(roots, path, n, name) {
      if |path| > 1 {
        var rest := path[1..];
        forall i | 0 <= i < |rest| - 1
          ensures rest[i] in RefGraph(roots) && rest[i + 1] in RefGraph(roots)[rest[i]]
        {
          assert rest[i] == path[i + 1] && rest[i + 1] == path[i + 2];
        }
        assert Leads(roots, rest, path[1], name);
        assert path[1] in RefGraph(roots)[path[0]];
      }
    }
    if HasLeaf(roots[n], name) {
      assert Leads(roots, [n], n, name);
    }
    if r :| r in RefList(roots[n]) && Reaches(roots, r, name) {
      var rest :| Leads(roots, rest, r, name);
      var path := [n] + rest;
      forall i | 0 <= i < |path| - 1
        ensures path[i] in RefGraph(roots) && path[i + 1] in RefGraph(roots)[path[i]]
      {
        assert i > 0 ==> path[i] == rest[i - 1] && path[i + 1] == rest[i];
      }
      assert Leads(roots, path, n, name);
    }
  }

  /** The expression has the leaf itself or refers to a set that leads to it. */
  ghost predicate Holds(env: Env, e: Expr, name: string) {
    HasLeaf(e, name) || exists r :: r in RefList(e) && Reaches(env.roots, r, name)
  }

  lemma HoldsByChild(env: Env, e: Expr, name: string)
    requires e.And? || e.Or?
    ensures Holds(env, e, name) <==> exists i :: 0 <= i < |e.children| && Holds(env, e.children[i], name)
  {
    if HasLeaf(e, name) {
      var c :| c in e.children && HasLeaf(c, name);
      var i :| 0 <= i < |e.children| && e.children[i] == c;
      assert Holds(env, e.children[i], name);
    } else if r :| r in RefList(e) && Reaches(env.roots, r, name) {
      RefListsHas(e.children, r);
      var i :| 0 <= i < |e.children| && r in RefList(e.children[i]);
      assert Holds(env, e.children[i], name);
    }
    if i :| 0 <= i < |e.children| && Holds(env, e.children[i], name) {
      assert e.children[i] in e.children;
      if r :| r in RefList(e.children[i]) && Reaches(env.roots, r, name) {
        RefListsHas(e.children, r);
      }
    }
  }

  /** An expression mentions exactly the leaves that it holds, through references. */
  lemma {:induction false} MentionsExactly(env: Env, e: Expr, name: string)
    requires Ordered(env) && Linked(env, e)
    ensures name in Mentions(env, e) <==> Holds(env, e, name)
    decreases Rank(env, e), e, 1
  {
    match e
    case Leaf(_) =>
    case Ref(n) =>
      RankOfTarget(env, e);
      MentionsExactly(env, env.roots[n], name);
      ReachStep(env.roots, n, name);
      assert RefList(e) == [n];
    case _ =>
      MentionsUpToExactly(env, e, |e.children|, name);
      HoldsByChild(env, e, name);
  }

  lemma {:induction false} MentionsUpToExactly(env: Env, e: Expr, k: nat, name: string)
    requires Ordered(env) && Linked(env, e) && (e.And? || e.Or?) && k <= |e.children|
    ensures name in MentionsUpTo(env, e, k) <==> exists i :: 0 <= i < k && Holds(env, e.children[i], name)
    decreases Rank(env, e), e, 0, k
  {
    if k > 0 {
      RankOfChild(env, e, k - 1);
      MentionsUpToExactly(env, e, k - 1, name);
      MentionsExactly(env, e.children[k - 1], name);
      UpToNext(env, e, k);
    }
  }

  // ---- Identifiers and models ----

  /** The models that these identifiers stand for. */
  ghost function Models(resolve: Resolver, ids: set<string>): set<string> {
    set id | id in ids && resolve(id).Some? :: resolve(id).value
  }

  /** The same of every set of a family. */
  ghost function Families(resolve: Resolver, family: set<set<string>>): set<set<string>> {
    set ids | ids in family :: Models(resolve, ids)
  }

  ghost predicate AllStand(e: Expr, resolve: Resolver)
    decreases e
  {
    match e
    case Leaf(name) => resolve(name).Some?
    case Ref(_) => true
    case And(cs) => forall c | c in cs :: AllStand(c, resolve)
    case Or(cs) => forall c | c in cs :: AllStand(c, resolve)
  }

  lemma {:induction false} ResolvableStands(e: Expr, resolve: Resolver, sets: set<string>)
    requires Resolvable(e, resolve, sets)
    ensures AllStand(e, resolve)
    decreases e
  {
    if e.And? || e.Or? {
      forall c | c in e.children
        ensures AllStand(c, resolve)
      {
        ResolvableStands(c, resolve, sets);
      }
    }
  }

  /** A leaf of the resolved expression is a model that some identifier stands for. */
  lemma {:induction false} ResolvedLeaves(e: Expr, resolve: Resolver, m: string)
    requires AllStand(e, resolve)
    ensures HasLeaf(Resolve(e, resolve), m) <==> exists id :: HasLeaf(e, id) && resolve(id) == Some(m)
    decreases e
  {
    match e
    case Leaf(name) => assert HasLeaf(e, name);
    case Ref(_) =>
    case _ =>
      var cs, rs := e.children, Resolve(e, resolve).children;
      if HasLeaf(Resolve(e, resolve), m) {
        var r :| r in rs && HasLeaf(r, m);
        var i :| 0 <= i < |rs| && rs[i] == r;
        assert cs[i] in cs;
        ResolvedLeaves(cs[i], resolve, m);
      }
      if id :| HasLeaf(e, id) && resolve(id) == Some(m) {
        var c :| c in cs && HasLeaf(c, id);
        var i :| 0 <= i < |cs| && cs[i] == c;
        ResolvedLeaves(c, resolve, m);
        assert rs[i] in rs;
      }
  }

  /** text and program describe the same sets, identifiers standing for models. */
  ghost predicate Translates(text: Env, program: Env, resolve: Resolver) {
    && program.order == text.order && program.roots.Keys == text.roots.Keys
    && forall n | n in text.roots :: AllStand(text.roots[n], resolve) && program.roots[n] == Resolve(text.roots[n], resolve)
  }

  lemma SameReferences(text: Env, program: Env, resolve: Resolver)
    requires Translates(text, program, resolve)
    ensures RefGraph(text.roots) == RefGraph(program.roots)
    ensures Ordered(program) <==> Ordered(text)
    ensures forall n | n in text.roots :: Linked(program, program.roots[n]) <==> Linked(text, text.roots[n])
  {
    forall n | n in text.roots
      ensures RefList(program.roots[n]) == RefList(text.roots[n])
    {
      ResolveKeepsRefs(text.roots[n], resolve);
    }
  }

  lemma FamiliesOfUnion(resolve: Resolver, xs: set<set<string>>, ys: set<set<string>>)
    ensures Families(resolve, xs + ys) == Families(resolve, xs) + Families(resolve, ys)
  {
  }

  lemma ModelsOfUnion(resolve: Resolver, x: set<string>, y: set<string>)
    ensures Models(resolve, x + y) == Models(resolve, x) + Models(resolve, y)
  {
  }

  lemma FamiliesOfCross(resolve: Resolver, xs: set<set<string>>, ys: set<set<string>>)
    ensures Families(resolve, Cross(xs, ys)) == Cross(Families(resolve, xs), Families(resolve, ys))
  {
    forall s | s in Families(resolve, Cross(xs, ys))
      ensures s in Cross(Families(resolve, xs), Families(resolve, ys))
    {
      var z :| z in Cross(xs, ys) && s == Models(resolve, z);
      var x, y :| x in xs && y in ys && z == x + y;
      ModelsOfUnion(resolve, x, y);
      CrossHas(Families(resolve, xs), Families(resolve, ys), Models(resolve, x), Models(resolve, y));
    }
    forall s | s in Cross(Families(resolve, xs), Families(resolve, ys))
      ensures s in Families(resolve, Cross(xs, ys))
    {
      var a, b :| a in Families(resolve, xs) && b in Families(resolve, ys) && s == a + b;
      var x :| x in xs && a == Models(resolve, x);
      var y :| y in ys && b == Models(resolve, y);
      ModelsOfUnion(resolve, x, y);
      CrossHas(xs, ys, x, y);
    }
  }

  /** The sets that a resolved expression describes are those of the text, with identifiers read as
      the models they stand for. */
  lemma {:induction false} ExpandTranslates(text: Env, program: Env, resolve: Resolver, e: Expr)
    requires Translates(text, program, resolve) && Ordered(text) && Linked(text, e) && AllStand(e, resolve)
    ensures Ordered(program) && Linked(program, Resolve(e, resolve))
    ensures Expand(program, Resolve(e, resolve)) == Families(resolve, Expand(text, e))
    decreases Rank(text, e), e, 1
  {
    SameReferences(text, program, resolve);
    ResolveKeepsRefs(e, resolve);
    match e
    case Leaf(name) =>
      assert Expand(text, e) == {{name}};
      assert Models(resolve, {name}) == {resolve(name).value};
    case Ref(name) =>
      RankOfTarget(text, e);
      ExpandTranslates(text, program, resolve, text.roots[name]);
    case Or(cs) =>
      ChildrenTranslate(text, program, resolve, e);
      OrTranslates(text, program, resolve, e, Resolve(e, resolve), |cs|);
    case And(cs) =>
      ChildrenTranslate(text, program, resolve, e);
      AndTranslates(text, program, resolve, e, Resolve(e, resolve), |cs|);
  }

  lemma {:induction false} ChildrenTranslate(text: Env, program: Env, resolve: Resolver, e: Expr)
    requires Translates(text, program, resolve) && Ordered(text) && Linked(text, e) && AllStand(e, resolve)
    requires Ordered(program) && Linked(program, Resolve(e, resolve)) && (e.And? || e.Or?)
    ensures forall i: nat | i < |e.children| :: ChildTranslates(text, program, resolve, e, Resolve(e, resolve), i)
    decreases Rank(text, e), e, 0
  {
    forall i: nat | i < |e.children|
      ensures ChildTranslates(text, program, resolve, e, Resolve(e, resolve), i)
    {
      assert e.children[i] in e.children;
      RankOfChild(text, e, i);
      RankOfChild(program, Resolve(e, resolve), i);
      ExpandTranslates(text, program, resolve, e.children[i]);
    }
  }

  /** The child of the program's expression describes what that of the text does. */
  ghost predicate ChildTranslates(text: Env, program: Env, resolve: Resolver, e: Expr, re: Expr, i: nat)
    requires Ordered(text) && Ordered(program)
    requires (e.And? || e.Or?) && (re.And? || re.Or?) && |re.children| == |e.children| && i < |e.children|
  {
    && Linked(text, e.children[i]) && Linked(program, re.children[i])
    && Expand(program, re.children[i]) == Families(resolve, Expand(text, e.children[i]))
  }

  lemma {:induction false} OrTranslates(text: Env, program: Env, resolve: Resolver, e: Expr, re: Expr, k: nat)
    requires Ordered(text) && Ordered(program) && Linked(text, e) && Linked(program, re)
    requires e.Or? && re.Or? && |re.children| == |e.children| && k <= |e.children|
    requires forall i: nat | i < k :: ChildTranslates(text, program, resolve, e, re, i)
    ensures ExpandOr(program, re, k) == Families(resolve, ExpandOr(text, e, k))
    decreases k
  {
    if k > 0 {
      OrTranslates(text, program, resolve, e, re, k - 1);
      UpToNext(text, e, k);
      UpToNext(program, re, k);
      assert ChildTranslates(text, program, resolve, e, re, k - 1);
      FamiliesOfUnion(resolve, ExpandOr(text, e, k - 1), Expand(text, e.children[k - 1]));
    }
  }

  lemma {:induction false} AndTranslates(text: Env, program: Env, resolve: Resolver, e: Expr, re: Expr, k: nat)
    requires Ordered(text) && Ordered(program) && Linked(text, e) && Linked(program, re)
    requires e.And? && re.And? && |re.children| == |e.children| && k <= |e.children|
    requires forall i: nat | i < k :: ChildTranslates(text, program, resolve, e, re, i)
    ensures ExpandAnd(program, re, k) == Families(resolve, ExpandAnd(text, e, k))
    decreases k
  {
    if k == 0 {
      assert Models(resolve, {}) == {};
    } else {
      AndTranslates(text, program, resolve, e, re, k - 1);
      UpToNext(text, e, k);
      UpToNext(program, re, k);
      assert ChildTranslates(text, program, resolve, e, re, k - 1);
      FamiliesOfCross(resolve, ExpandAnd(text, e, k - 1), Expand(text, e.children[k - 1]));
    }
  }

  // ---- Compiled programs ----

  /** The parsed text of each name, that of its last definition. */
  ghost predicate Texts(u: Classes, defs: seq<Definition>, trees: map<string, Expr>) {
    && trees.Keys == (set d | d in defs :: d.name)
    && forall n | n in trees :: exists i: nat :: IsLast(defs, i, n) && ParseText(u, defs[i].dsl) == Ok(trees[n])
  }

  lemma {:induction false} RootsOfTexts(u: Classes, defs: seq<Definition>, resolve: Resolver, n: string, i: nat)
    requires AllParse(u, defs) && IsLast(defs, i, n)
    ensures n in Roots(u, defs, resolve) && Roots(u, defs, resolve)[n] == Resolve(ParseText(u, defs[i].dsl).value, resolve)
  {
    var k := |defs| - 1;
    if i < k {
      assert defs[k].name != n;
      RootsOfTexts(u, defs[..k], resolve, n, i);
    }
  }

  /** An expression is good exactly if each of its leaves stands for a model and each of its
      references names a set. */
  lemma {:induction false} ResolvableExactly(e: Expr, resolve: Resolver, sets: set<string>)
    ensures Resolvable(e, resolve, sets) <==>
            && (forall id | HasLeaf(e, id) :: resolve(id).Some?)
            && (forall r | r in RefList(e) :: r in sets)
    decreases e
  {
    match e
    case Leaf(name) => assert HasLeaf(e, name);
    case Ref(name) => assert RefList(e) == [name];
    case _ =>
      forall c | c in e.children
        ensures Resolvable(c, resolve, sets) <==>
                && (forall id | HasLeaf(c, id) :: resolve(id).Some?)
                && (forall r | r in RefList(c) :: r in sets)
        ensures forall id | HasLeaf(c, id) :: HasLeaf(e, id)
        ensures forall r | r in RefList(c) :: r in RefList(e)
      {
        ResolvableExactly(c, resolve, sets);
        ChildRefs(e, c);
      }
      forall r | r in RefList(e)
        ensures exists c :: c in e.children && r in RefList(c)
      {
        RefListsHas(e.children, r);
        var i :| 0 <= i < |e.children| && r in RefList(e.children[i]);
        assert e.children[i] in e.children;
      }
  }

  lemma ChildRefs(e: Expr, c: Expr)
    requires (e.And? || e.Or?) && c in e.children
    ensures forall r | r in RefList(c) :: r in RefList(e)
  {
    var i :| 0 <= i < |e.children| && e.children[i] == c;
    forall r | r in RefList(c)
      ensures r in RefList(e)
    {
      RefListsHas(e.children, r);
    }
  }

  /** A definition is good when its text parses to an expression whose leaves all stand for models
      and whose references all name sets. */
  ghost predicate IsGood(u: Classes, d: Definition, names: set<string>, resolve: Resolver) {
    match ParseText(u, d.dsl)
    case Ok(e) => (forall id | HasLeaf(e, id) :: resolve(id).Some?) && (forall r | r in RefList(e) :: r in names)
    case Err(_) => false
  }

  /** Definitions make a program exactly if there are some, each is good, and the texts that count
      refer to each other without a cycle. */
  lemma CompilesExactly(u: Classes, defs: seq<Definition>, resolve: Resolver, trees: map<string, Expr>)
    requires AllParse(u, defs) ==> Texts(u, defs, trees)
    ensures Compilable(u, defs, resolve) <==>
            && defs != []
            && (forall d | d in defs :: IsGood(u, d, set x | x in defs :: x.name, resolve))
            && Acyclic(RefGraph(trees))
  {
    forall d | d in defs
      ensures IsGood(u, d, SetNames(defs), resolve) <==> DefinitionOk(u, d, SetNames(defs), resolve)
    {
      if ParseText(u, d.dsl).Ok? {
        ResolvableExactly(ParseText(u, d.dsl).value, resolve, SetNames(defs));
      }
    }
    if forall d | d in defs :: DefinitionOk(u, d, SetNames(defs), resolve) {
      assert AllParse(u, defs);
      SameGraph(u, defs, resolve, trees);
    }
  }

  lemma SameGraph(u: Classes, defs: seq<Definition>, resolve: Resolver, trees: map<string, Expr>)
    requires AllParse(u, defs) && Texts(u, defs, trees)
    ensures RefGraph(Roots(u, defs, resolve)) == RefGraph(trees)
  {
    RootsNamed(u, defs, resolve);
    forall n | n in trees
      ensures n in Roots(u, defs, resolve) && RefList(Roots(u, defs, resolve)[n]) == RefList(trees[n])
    {
      SameRefs(u, defs, resolve, trees, n);
    }
    SameRefGraphs(Roots(u, defs, resolve), trees);
  }

  lemma SameRefGraphs(a: map<string, Expr>, b: map<string, Expr>)
    requires a.Keys == b.Keys && forall n | n in b :: RefList(a[n]) == RefList(b[n])
    ensures RefGraph(a) == RefGraph(b)
  {
  }

  lemma SameRefs(u: Classes, defs: seq<Definition>, resolve: Resolver, trees: map<string, Expr>, n: string)
    requires AllParse(u, defs) && Texts(u, defs, trees) && n in trees
    ensures n in Roots(u, defs, resolve) && RefList(Roots(u, defs, resolve)[n]) == RefList(trees[n])
  {
    var i: nat :| IsLast(defs, i, n) && ParseText(u, defs[i].dsl) == Ok(trees[n]);
    RootsOfTexts(u, defs, resolve, n, i);
    ResolveKeepsRefs(trees[n], resolve);
  }

  lemma CompiledTranslates(u: Classes, defs: seq<Definition>, resolve: Resolver, p: Program, trees: map<string, Expr>)
    requires Compilable(u, defs, resolve) && p.Good() && p.roots == Roots(u, defs, resolve) && Texts(u, defs, trees)
    ensures Translates(Env(p.Linkage().order, trees), p.Linkage(), resolve)
  {
    RootsNamed(u, defs, resolve);
    forall n | n in trees
      ensures AllStand(trees[n], resolve) && p.roots[n] == Resolve(trees[n], resolve)
    {
      var i: nat :| IsLast(defs, i, n) && ParseText(u, defs[i].dsl) == Ok(trees[n]);
      RootsOfTexts(u, defs, resolve, n, i);
      assert defs[i] in defs && DefinitionOk(u, defs[i], SetNames(defs), resolve);
      ResolvableStands(trees[n], resolve, SetNames(defs));
    }
  }

  /** Each set of a compiled program describes exactly the model sets that its text describes, when
      every identifier is read as the model it stands for: x & y unites, x | y chooses, and a
      reference is the text of the set that it names. */
  lemma CompiledSetsAreTheirTexts(u: Classes, defs: seq<Definition>, resolve: Resolver, p: Program, trees: map<string, Expr>, k: nat)
    requires Compilable(u, defs, resolve) && p.Good() && p.roots == Roots(u, defs, resolve) && Texts(u, defs, trees)
    requires k < |p.sets|
    ensures var text, n := Env(p.Linkage().order, trees), p.sets[k].name;
      && Ordered(text) && n in trees && Linked(text, trees[n])
      && Linked(p.Linkage(), p.sets[k].root)
      && (forall s :: s in Expand(p.Linkage(), p.sets[k].root) <==>
                      exists ids :: ids in Expand(text, trees[n]) && s == set id | id in ids && resolve(id).Some? :: resolve(id).value)
  {
    var text, n := Env(p.Linkage().order, trees), p.sets[k].name;
    CompiledTranslates(u, defs, resolve, p, trees);
    SameReferences(text, p.Linkage(), resolve);
    assert p.GoodSet(p.sets[k]);
    ExpandTranslates(text, p.Linkage(), resolve, trees[n]);
    assert forall ids :: Models(resolve, ids) == set id | id in ids && resolve(id).Some? :: resolve(id).value;
  }

  /** A compiled set mentions a model exactly if an identifier of its text, or of the text of a set
      that it refers to, at once or through others, stands for that model. */
  lemma CompiledMentionsExactly(u: Classes, defs: seq<Definition>, resolve: Resolver, p: Program, trees: map<string, Expr>,
                                k: nat, m: string)
    requires Compilable(u, defs, resolve) && p.Good() && p.roots == Roots(u, defs, resolve) && Texts(u, defs, trees)
    requires k < |p.sets|
    ensures Linked(p.Linkage(), p.sets[k].root)
    ensures m in Mentions(p.Linkage(), p.sets[k].root) <==>
            exists id :: resolve(id) == Some(m) && Reaches(trees, p.sets[k].name, id)
  {
    var text, n := Env(p.Linkage().order, trees), p.sets[k].name;
    CompiledTranslates(u, defs, resolve, p, trees);
    SameReferences(text, p.Linkage(), resolve);
    assert p.GoodSet(p.sets[k]);
    MentionsExactly(p.Linkage(), p.sets[k].root, m);
    ReachStep(p.roots, n, m);
    ReachesTranslates(text, p.Linkage(), resolve, n, m);
  }

  lemma ReachesTranslates(text: Env, program: Env, resolve: Resolver, n: string, m: string)
    requires Translates(text, program, resolve)
    ensures Reaches(program.roots, n, m) <==> exists id :: resolve(id) == Some(m) && Reaches(text.roots, n, id)
  {
    SameReferences(text, program, resolve);
    if path :| Leads(program.roots, path, n, m) {
      var last := path[|path| - 1];
      ResolvedLeaves(text.roots[last], resolve, m);
      var id :| HasLeaf(text.roots[last], id) && resolve(id) == Some(m);
      assert Leads(text.roots, path, n, id);
    }
    if id :| resolve(id) == Some(m) && Reaches(text.roots, n, id) {
      var path :| Leads(text.roots, path, n, id);
      ResolvedLeaves(text.roots[path[|path| - 1]], resolve, m);
      assert Leads(program.roots, path, n, m);
    }
  }
}
