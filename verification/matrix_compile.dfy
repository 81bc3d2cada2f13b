/** Compile (internal/matrix/program.go): from named definitions to a program, or an error. */
module MatrixCompile {
  import opened Names
  import opened MatrixDsl
  import opened BitMasks
  import opened MatrixProgram

  datatype CompileError =
    | NoSets
    | BadDsl(setName: string, dsl: DslError)
    | UnknownModel(setName: string, ident: string)
    | UndefinedSet(setName: string, ref: string)
    | CircularReference

  // ---- Resolving one definition ----

  /** The expression with every identifier replaced by the model it stands for. */
  function Resolve(e: Expr, resolve: Resolver): Expr
    decreases e
  {
    match e
    case Leaf(name) => (match resolve(name) case Some(model) => Leaf(model) case None => e)
    case Ref(_) => e
    case And(cs) => And(seq(|cs|, i requires 0 <= i < |cs| => Resolve(cs[i], resolve)))
    case Or(cs) => Or(seq(|cs|, i requires 0 <= i < |cs| => Resolve(cs[i], resolve)))
  }

  /** Every identifier stands for a model and every reference names a set. */
  ghost predicate Resolvable(e: Expr, resolve: Resolver, sets: set<string>)
    decreases e
  {
    match e
    case Leaf(name) => resolve(name).Some?
    case Ref(name) => name in sets
    case And(cs) => forall c | c in cs :: Resolvable(c, resolve, sets)
    case Or(cs) => forall c | c in cs :: Resolvable(c, resolve, sets)
  }

  lemma {:induction false} ResolveKeepsRefs(e: Expr, resolve: Resolver)
    ensures RefList(Resolve(e, resolve)) == RefList(e)
    decreases e, 1
  {
    if e.And? || e.Or? {
      var cs := e.children;
      ResolvedListKeepsRefs(e, cs, Resolve(e, resolve).children, resolve);
    }
  }

  lemma {:induction false} ResolvedListKeepsRefs(e: Expr, cs: seq<Expr>, rs: seq<Expr>, resolve: Resolver)
    requires forall c | c in cs :: c < e
    requires |rs| == |cs| && forall i | 0 <= i < |cs| :: rs[i] == Resolve(cs[i], resolve)
    ensures RefLists(rs) == RefLists(cs)
    decreases e, 0, |cs|
  {
    if cs != [] {
      assert cs[0] in cs;
      ResolveKeepsRefs(cs[0], resolve);
      forall c | c in cs[1..]
        ensures c in cs
      {
      }
      ResolvedListKeepsRefs(e, cs[1..], rs[1..], resolve);
    }
  }

  lemma {:induction false} ResolvableRefs(e: Expr, resolve: Resolver, sets: set<string>)
    requires Resolvable(e, resolve, sets)
    ensures forall r | r in RefList(e) :: r in sets
    decreases e
  {
    if e.And? || e.Or? {
      forall r | r in RefList(e)
        ensures r in sets
      {
        RefListsHas(e.children, r);
        var i :| 0 <= i < |e.children| && r in RefList(e.children[i]);
        assert e.children[i] in e.children;
        ResolvableRefs(e.children[i], resolve, sets);
      }
    }
  }

  /** The error names what is wrong with an expression of this definition. */
  ghost predicate Blames(error: CompileError, definition: string, e: Expr, resolve: Resolver, sets: set<string>) {
    match error
    case UnknownModel(setName, ident) => setName == definition && HasLeaf(e, ident) && resolve(ident).None?
    case UndefinedSet(setName, ref) => setName == definition && ref in RefList(e) && ref !in sets
    case _ => false
  }

  lemma BlamesParent(error: CompileError, definition: string, e: Expr, c: Expr, resolve: Resolver, sets: set<string>)
    requires (e.And? || e.Or?) && c in e.children && Blames(error, definition, c, resolve, sets)
    ensures Blames(error, definition, e, resolve, sets)
  {
    if error.UndefinedSet? {
      var i :| 0 <= i < |e.children| && e.children[i] == c;
      RefListsHas(e.children, error.ref);
    }
  }

  /** The walk over one parsed definition: resolve leaves, collect each reference once. */
  method Walk(e: Expr, definition: string, resolve: Resolver, setNames: set<string>, refs: seq<string>)
    returns (r: Result<Expr, CompileError>, refs': seq<string>)
    ensures r.Ok? <==> Resolvable(e, resolve, setNames)
    ensures r.Ok? ==> r.value == Resolve(e, resolve) && Elems(refs') == Elems(refs) + Elems(RefList(e))
    ensures r.Err? ==> Blames(r.error, definition, e, resolve, setNames)
    decreases e, 1
  {
    refs' := refs;
    match e
    case Leaf(name) =>
      match resolve(name) {
        case Some(model) => r := Ok(Leaf(model));
        case None => r := Err(UnknownModel(definition, name));
      }
    case Ref(name) =>
      if name !in setNames {
        return Err(UndefinedSet(definition, name)), refs;
      }
      if name !in refs {
        refs' := refs + [name];
      }
      r := Ok(e);
    case And(cs) =>
      var done: seq<Expr>;
      r, done, refs' := WalkChildren(e, definition, resolve, setNames, refs);
      if r.Ok? {
        assert Resolve(e, resolve) == And(done);
        r := Ok(And(done));
      }
    case Or(cs) =>
      var done: seq<Expr>;
      r, done, refs' := WalkChildren(e, definition, resolve, setNames, refs);
      if r.Ok? {
        assert Resolve(e, resolve) == Or(done);
        r := Ok(Or(done));
      }
  }

  method WalkChildren(e: Expr, definition: string, resolve: Resolver, setNames: set<string>, refs: seq<string>)
    returns (r: Result<Expr, CompileError>, done: seq<Expr>, refs': seq<string>)
    requires e.And? || e.Or?
    ensures r.Ok? <==> forall c | c in e.children :: Resolvable(c, resolve, setNames)
    ensures r.Ok? ==>
            && done == seq(|e.children|, i requires 0 <= i < |e.children| => Resolve(e.children[i], resolve))
            && Elems(refs') == Elems(refs) + Elems(RefLists(e.children))
    ensures r.Err? ==> Blames(r.error, definition, e, resolve, setNames)
    decreases e, 0
  {
    var cs := e.children;
    done, refs' := [], refs;
    while |done| < |cs|
      invariant |done| <= |cs|
      invariant forall i :: 0 <= i < |done| ==> Resolvable(cs[i], resolve, setNames)
      invariant forall i :: 0 <= i < |done| ==> done[i] == Resolve(cs[i], resolve)
      invariant Elems(refs') == Elems(refs) + Elems(RefLists(cs[..|done|]))
    {
      var k := |done|;
      var child, more := Walk(cs[k], definition, resolve, setNames, refs');
      if child.Err? {
        assert cs[k] in cs;
        BlamesParent(child.error, definition, e, cs[k], resolve, setNames);
        return child, done, refs';
      }
      RefListsAppend(cs, k);
      ElemsAppend(RefLists(cs[..k]), RefList(cs[k]));
      done := done + [child.value];
      refs' := more;
    }
    assert cs[..|done|] == cs;
    r := Ok(e);
  }

  lemma {:induction false} RefListsAppend(cs: seq<Expr>, k: nat)
    requires k < |cs|
    ensures RefLists(cs[..k + 1]) == RefLists(cs[..k]) + RefList(cs[k])
    decreases k
  {
    if k == 0 {
      assert cs[..1] == [cs[0]];
      assert RefLists([cs[0]][1..]) == [];
    } else {
      RefListsAppend(cs[1..], k - 1);
      assert cs[..k + 1][1..] == cs[1..][..k] && cs[..k][1..] == cs[1..][..k - 1];
    }
  }

  // ---- Compile ----

  ghost function SetNames(defs: seq<Definition>): set<string> {
    set d | d in defs :: d.name
  }

  /** One definition parses, its identifiers are known and its references name sets. */
  ghost predicate DefinitionOk(u: Classes, d: Definition, sets: set<string>, resolve: Resolver) {
    match ParseText(u, d.dsl)
    case Ok(e) => Resolvable(e, resolve, sets)
    case Err(_) => false
  }

  ghost predicate DefinitionsOk(u: Classes, defs: seq<Definition>, resolve: Resolver) {
    forall d | d in defs :: DefinitionOk(u, d, SetNames(defs), resolve)
  }

  /** The expression each name ends up with: the last definition of a name counts. */
  ghost function Roots(u: Classes, defs: seq<Definition>, resolve: Resolver): map<string, Expr>
    requires forall d | d in defs :: ParseText(u, d.dsl).Ok?
  {
    if defs == [] then map[]
    else
      var d := defs[|defs| - 1];
      assert d in defs;
      Roots(u, defs[..|defs| - 1], resolve)[d.name := Resolve(ParseText(u, d.dsl).value, resolve)]
  }

  ghost predicate AllParse(u: Classes, defs: seq<Definition>) {
    forall d | d in defs :: ParseText(u, d.dsl).Ok?
  }

  lemma {:induction false} RootsNamed(u: Classes, defs: seq<Definition>, resolve: Resolver)
    requires AllParse(u, defs)
    ensures Roots(u, defs, resolve).Keys == SetNames(defs)
  {
    if defs != [] {
      var k := |defs| - 1;
      RootsNamed(u, defs[..k], resolve);
      assert defs == defs[..k] + [defs[k]];
      assert SetNames(defs) == SetNames(defs[..k]) + {defs[k].name};
    }
  }

  /** Each root comes from a definition. */
  lemma {:induction false} RootOrigin(u: Classes, defs: seq<Definition>, resolve: Resolver, n: string) returns (d: Definition)
    requires AllParse(u, defs) && n in Roots(u, defs, resolve)
    ensures d in defs && d.name == n
    ensures ParseText(u, d.dsl).Ok?
    ensures Roots(u, defs, resolve)[n] == Resolve(ParseText(u, d.dsl).value, resolve)
  {
    var k := |defs| - 1;
    if n == defs[k].name {
      d := defs[k];
    } else {
      d := RootOrigin(u, defs[..k], resolve, n);
    }
  }

  /** The references of a good list of definitions stay within it. */
  lemma RootsClosed(u: Classes, defs: seq<Definition>, resolve: Resolver)
    requires AllParse(u, defs) && DefinitionsOk(u, defs, resolve)
    ensures Closed(RefGraph(Roots(u, defs, resolve)))
  {
    var roots := Roots(u, defs, resolve);
    RootsNamed(u, defs, resolve);
    forall n, r | n in roots && r in RefGraph(roots)[n]
      ensures r in roots
    {
      var d := RootOrigin(u, defs, resolve, n);
      ResolveKeepsRefs(ParseText(u, d.dsl).value, resolve);
      ResolvableRefs(ParseText(u, d.dsl).value, resolve, SetNames(defs));
    }
  }

  /** When a list of definitions makes a program. */
  ghost predicate Compilable(u: Classes, defs: seq<Definition>, resolve: Resolver) {
    && defs != []
    && AllParse(u, defs) && DefinitionsOk(u, defs, resolve)
    && Acyclic(RefGraph(Roots(u, defs, resolve)))
  }

  /** The topological order only depends on which sets are listed, not on order or repeats. */
  lemma SameEdges(g: Graph, h: Graph)
    requires g.Keys == h.Keys && forall n | n in g :: Elems(g[n]) == Elems(h[n])
    ensures Closed(g) <==> Closed(h)
    ensures Acyclic(g) <==> Acyclic(h)
    ensures forall order :: Topological(g, order) <==> Topological(h, order)
  {
    assert forall n, d | n in g :: d in g[n] <==> d in Elems(g[n]);
    assert forall n, d | n in h :: d in h[n] <==> d in Elems(h[n]);
    assert forall p :: IsPath(g, p) <==> IsPath(h, p);
    assert forall p :: IsCycle(g, p) <==> IsCycle(h, p);
  }

  method CollectNames(definitions: seq<Definition>) returns (names: seq<string>, setNames: set<string>)
    ensures setNames == SetNames(definitions) == Elems(names)
  {
    setNames := {};
    names := [];
    for i := 0 to |definitions|
      invariant setNames == SetNames(definitions[..i]) == Elems(names)
    {
      assert definitions[..i + 1] == definitions[..i] + [definitions[i]];
      setNames := setNames + {definitions[i].name};
      names := names + [definitions[i].name];
    }
    assert definitions[..|definitions|] == definitions;
  }

  /** The definitions in done are all good, and roots is what they give. */
  ghost predicate Rooted(u: Classes, done: seq<Definition>, resolve: Resolver, sets: set<string>, roots: map<string, Expr>) {
    && AllParse(u, done)
    && (forall d | d in done :: DefinitionOk(u, d, sets, resolve))
    && roots == Roots(u, done, resolve)
  }

  lemma RootOne(u: Classes, done: seq<Definition>, resolve: Resolver, sets: set<string>, roots: map<string, Expr>,
                d: Definition, e: Expr)
    requires Rooted(u, done, resolve, sets, roots)
    requires ParseText(u, d.dsl) == Ok(e) && Resolvable(e, resolve, sets)
    ensures Rooted(u, done + [d], resolve, sets, roots[d.name := Resolve(e, resolve)])
  {
    var next := done + [d];
    assert next[..|done|] == done && next[|done|] == d;
    assert forall x | x in next :: x in done || x == d;
  }

  /** The last definition of a name is this one. */
  ghost predicate IsLast(defs: seq<Definition>, i: nat, name: string) {
    i < |defs| && defs[i].name == name && forall j | i < j < |defs| :: defs[j].name != name
  }

  /** The text is that of the last definition of the name. */
  ghost predicate LastText(defs: seq<Definition>, name: string, dsl: string) {
    exists i: nat :: IsLast(defs, i, name) && defs[i].dsl == dsl
  }

  lemma LastTextSnoc(defs: seq<Definition>, d: Definition, name: string, dsl: string)
    requires name != d.name && LastText(defs, name, dsl)
    ensures LastText(defs + [d], name, dsl)
  {
    var i: nat :| IsLast(defs, i, name) && defs[i].dsl == dsl;
    assert IsLast(defs + [d], i, name);
  }

  /** The side tables agree with the roots. */
  ghost predicate Tabled(done: seq<Definition>, roots: map<string, Expr>, dslByName: map<string, string>, deps: Graph) {
    && deps.Keys == dslByName.Keys == roots.Keys
    && (forall n | n in roots :: Elems(deps[n]) == Elems(RefList(roots[n])))
    && (forall n | n in dslByName :: LastText(done, n, dslByName[n]))
  }

  lemma TableOne(done: seq<Definition>, roots: map<string, Expr>, dslByName: map<string, string>, deps: Graph,
                 d: Definition, e: Expr, refs: seq<string>)
    requires Tabled(done, roots, dslByName, deps) && Elems(refs) == Elems(RefList(e))
    ensures Tabled(done + [d], roots[d.name := e], dslByName[d.name := d.dsl], deps[d.name := refs])
  {
    forall n | n in dslByName && n != d.name
      ensures LastText(done + [d], n, dslByName[n])
    {
      LastTextSnoc(done, d, n, dslByName[n]);
    }
    assert IsLast(done + [d], |done|, d.name);
  }

  /** Definition i is the first that is not good, and the error says what is wrong with it. */
  ghost predicate FirstBad(u: Classes, defs: seq<Definition>, sets: set<string>, resolve: Resolver, i: nat, error: CompileError) {
    && i < |defs| && (forall j | 0 <= j < i :: DefinitionOk(u, defs[j], sets, resolve))
    && !DefinitionOk(u, defs[i], sets, resolve)
    && match ParseText(u, defs[i].dsl)
       case Err(e) => error == BadDsl(defs[i].name, e)
       case Ok(e) => Blames(error, defs[i].name, e, resolve, sets)
  }

  method GatherAll(u: Classes, definitions: seq<Definition>, resolve: Resolver, setNames: set<string>)
    returns (r: Result<map<string, Expr>, CompileError>, dslByName: map<string, string>, deps: Graph)
    ensures r.Ok? ==> Rooted(u, definitions, resolve, setNames, r.value)
    ensures r.Ok? ==> Tabled(definitions, r.value, dslByName, deps)
    ensures r.Err? ==> exists i :: FirstBad(u, definitions, setNames, resolve, i, r.error)
  {
    var roots: map<string, Expr> := map[];
    dslByName, deps := map[], map[];
    for i := 0 to |definitions|
      invariant Rooted(u, definitions[..i], resolve, setNames, roots)
      invariant Tabled(definitions[..i], roots, dslByName, deps)
    {
      var d := definitions[i];
      assert d in definitions;
      var parsed := ParseDsl(u, d.dsl);
      if parsed.Err? {
        assert FirstBad(u, definitions, setNames, resolve, i, BadDsl(d.name, parsed.error));
        return Err(BadDsl(d.name, parsed.error)), dslByName, deps;
      }
      var walked, refs := Walk(parsed.value, d.name, resolve, setNames, []);
      if walked.Err? {
        assert FirstBad(u, definitions, setNames, resolve, i, walked.error);
        return Err(walked.error), dslByName, deps;
      }
      RootOne(u, definitions[..i], resolve, setNames, roots, d, parsed.value);
      ResolveKeepsRefs(parsed.value, resolve);
      TableOne(definitions[..i], roots, dslByName, deps, d, walked.value, refs);
      assert definitions[..i + 1] == definitions[..i] + [d];
      roots := roots[d.name := walked.value];
      dslByName := dslByName[d.name := d.dsl];
      deps := deps[d.name := refs];
    }
    assert definitions[..|definitions|] == definitions;
    r := Ok(roots);
  }

  method Compile(u: Classes, definitions: seq<Definition>, resolve: Resolver) returns (r: Result<Program, CompileError>)
    ensures r.Ok? <==> Compilable(u, definitions, resolve)
    ensures r == Err(NoSets) <==> definitions == []
    ensures r == Err(CircularReference) <==>
            && definitions != [] && AllParse(u, definitions) && DefinitionsOk(u, definitions, resolve)
            && !Acyclic(RefGraph(Roots(u, definitions, resolve)))
    ensures r.Err? && r.error != NoSets && r.error != CircularReference ==>
              exists i :: FirstBad(u, definitions, SetNames(definitions), resolve, i, r.error)
    ensures r.Ok? ==>
            && r.value.Good() && r.value.roots == Roots(u, definitions, resolve)
            && forall s | s in r.value.sets :: LastText(definitions, s.name, s.dsl)
  {
    if definitions == [] {
      return Err(NoSets);
    }
    var names, setNames := CollectNames(definitions);
    var gathered, dslByName, deps := GatherAll(u, definitions, resolve, setNames);
    if gathered.Err? {
      return Err(gathered.error);
    }
    var roots := gathered.value;
    RootsNamed(u, definitions, resolve);
    RootsClosed(u, definitions, resolve);
    SameEdges(RefGraph(roots), deps);

    var order := TopologicalOrder(names, deps);
    if order.None? {
      return Err(CircularReference);
    }
    var program := ComputeSupport(Env(order.value, roots), dslByName);
    r := Ok(program);
  }

  // ---- Support ----

  class SupportCollector {
    const env: Env
    var memo: map<Expr, set<string>>

    constructor (env: Env)
      requires Ordered(env)
      ensures this.env == env && Valid()
    {
      this.env := env;
      memo := map[];
    }

    ghost predicate Valid()
      reads this
    {
      && Ordered(env)
      && forall e | e in memo :: Linked(env, e) && memo[e] == Mentions(env, e)
    }

    method Collect(n: Expr) returns (models: set<string>)
      requires Valid() && Linked(env, n)
      modifies this
      ensures Valid() && models == Mentions(env, n)
      decreases Rank(env, n), n, 1
    {
      if n in memo {
        return memo[n];
      }
      match n {
        case Leaf(name) =>
          models := {name};
        case Ref(name) =>
          RankOfTarget(env, n);
          models := Collect(env.roots[name]);
        case _ =>
          models := CollectChildren(n);
      }
      memo := memo[n := models];
    }

    method CollectChildren(n: Expr) returns (models: set<string>)
      requires Valid() && Linked(env, n) && (n.And? || n.Or?)
      modifies this
      ensures Valid() && models == MentionsUpTo(env, n, |n.children|)
      decreases Rank(env, n), n, 0
    {
      models := {};
      for i := 0 to |n.children|
        invariant Valid() && models == MentionsUpTo(env, n, i)
      {
        RankOfChild(env, n, i);
        var some := Collect(n.children[i]);
        models := models + some;
      }
    }
  }

  ghost predicate KeysSoFar(r: map<string, nat>, todo: set<string>, bits: map<string, nat>, models: set<string>) {
    r.Keys + todo == bits.Keys + models
  }

  lemma OneKeyMore(r: map<string, nat>, todo: set<string>, bits: map<string, nat>, models: set<string>, m: string)
    requires KeysSoFar(r, todo, bits, models) && m in todo
    ensures forall next: map<string, nat> | next.Keys == r.Keys + {m} :: KeysSoFar(next, todo - {m}, bits, models)
  {
    forall next: map<string, nat> | next.Keys == r.Keys + {m}
      ensures KeysSoFar(next, todo - {m}, bits, models)
    {
      assert next.Keys + (todo - {m}) == r.Keys + todo;
    }
  }

  /** Gives each model that has none yet the next free bit. */
  method Register(bits: map<string, nat>, models: set<string>) returns (r: map<string, nat>)
    requires Registry(bits)
    ensures Registry(r) && r.Keys == bits.Keys + models
  {
    r := bits;
    var todo := models;
    while todo != {}
      invariant Registry(r)
      invariant KeysSoFar(r, todo, bits, models)
    {
      var m :| m in todo;
      OneKeyMore(r, todo, bits, models, m);
      r := RegisterOne(r, m);
      todo := todo - {m};
    }
  }

  method RegisterOne(bits: map<string, nat>, m: string) returns (r: map<string, nat>)
    requires Registry(bits)
    ensures Registry(r) && r.Keys == bits.Keys + {m}
  {
    r := bits;
    if m !in bits {
      RegistryGrows(bits, m);
      r := bits[m := |bits|];
    }
  }

  method SupportMask(bits: map<string, nat>, words: nat, models: set<string>) returns (mask: BitMask)
    requires Registry(bits) && words == WordsFor(|bits|) && models <= bits.Keys
    ensures |mask| == words && Supports(bits, mask, models)
  {
    mask := EmptyMask(words);
    var todo := models;
    while todo != {}
      invariant |mask| == words && todo <= models
      invariant forall m | m in bits :: bits[m] in Bits(mask) <==> m in models - todo
    {
      var m :| m in todo;
      assert bits[m] in bits.Values;
      mask := SetBit(mask, bits[m]);
      todo := todo - {m};
    }
  }

  method CollectSet(collector: SupportCollector, i: nat) returns (models: set<string>)
    requires collector.Valid() && i < |collector.env.order|
    modifies collector
    ensures collector.Valid() && IsMentionsOf(collector.env, i, models)
  {
    var name := collector.env.order[i];
    RankOfSet(collector.env, name);
    models := collector.Collect(collector.env.roots[name]);
  }

  /** The models that each set mentions, in set order, and a registry of all of them. */
  method CollectAll(env: Env) returns (setModels: seq<set<string>>, bits: map<string, nat>)
    requires Ordered(env)
    ensures |setModels| == |env.order| && Registry(bits)
    ensures forall i | 0 <= i < |env.order| :: IsMentionsOf(env, i, setModels[i]) && setModels[i] <= bits.Keys
  {
    var collector := new SupportCollector(env);
    setModels, bits := [], map[];
    while |setModels| < |env.order|
      invariant |setModels| <= |env.order| && collector.Valid() && collector.env == env
      invariant Registry(bits)
      invariant forall i | 0 <= i < |setModels| :: IsMentionsOf(env, i, setModels[i])
      invariant forall i | 0 <= i < |setModels| :: setModels[i] <= bits.Keys
    {
      var models := CollectSet(collector, |setModels|);
      bits := Register(bits, models);
      setModels := setModels + [models];
    }
  }

  ghost predicate IsMentionsOf(env: Env, i: nat, models: set<string>)
    requires Ordered(env) && i < |env.order|
  {
    && env.order[i] in env.roots && Linked(env, env.roots[env.order[i]])
    && models == Mentions(env, env.roots[env.order[i]])
  }

  method ComputeSupport(env: Env, dslByName: map<string, string>) returns (p: Program)
    requires Ordered(env) && dslByName.Keys == env.roots.Keys
    ensures p.Good() && p.roots == env.roots && p.Linkage() == env
    ensures forall s | s in p.sets :: s.name in dslByName && s.dsl == dslByName[s.name]
  {
    var setModels, bits := CollectAll(env);
    var words := WordsFor(|bits|);
    var sets: seq<CompiledSet> := [];
    while |sets| < |env.order|
      invariant |sets| <= |env.order|
      invariant forall i | 0 <= i < |sets| :: IsSetOf(env, dslByName, bits, words, i, sets[i])
    {
      var i := |sets|;
      var name := env.order[i];
      assert IsMentionsOf(env, i, setModels[i]);
      var support := SupportMask(bits, words, setModels[i]);
      sets := sets + [CompiledSet(name, dslByName[name], env.roots[name], support)];
    }
    p := Program(sets, env.roots, bits, words);
    assert p.Linkage().order == env.order;
    forall i | 0 <= i < |sets|
      ensures p.GoodSet(sets[i])
    {
      assert IsSetOf(env, dslByName, bits, words, i, sets[i]);
    }
  }

  ghost predicate IsSetOf(env: Env, dslByName: map<string, string>, bits: map<string, nat>, words: nat, i: nat, s: CompiledSet)
    requires Ordered(env) && i < |env.order|
  {
    && s.name == env.order[i] && s.name in env.roots && s.name in dslByName
    && s.root == env.roots[s.name] && Linked(env, s.root)
    && s.dsl == dslByName[s.name]
    && |s.support| == words
    && Supports(bits, s.support, Mentions(env, s.root))
  }
}
