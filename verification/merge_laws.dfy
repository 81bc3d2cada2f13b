/** What merging configuration sources (internal/config/merge.go) means, read off the trees alone:
    what the result holds under any keys taken one after another, and which sources conflict. */
module MergeLaws {
  import opened Names
  import opened ConfigMerge

  /** What a tree holds under these keys, each looked up in what the one before leads to. */
  function Under(n: Node, ks: seq<string>): Option<Node>
    decreases |ks|
  {
    if ks == [] then Some(n)
    else if n.Mapping? && Find(n.content, ks[0]).Some? then Under(Find(n.content, ks[0]).value, ks[1..])
    else None
  }

  /** What comes of two values in one place: null gives way, lists are put one after the other,
      equal scalars stay. */
  ghost predicate Settles(x: Node, y: Node, z: Node) {
    if IsNull(x) then z == y
    else if IsNull(y) then z == x
    else
      match (x, y)
      case (Mapping(_), Mapping(_)) => z.Mapping?
      case (Sequence(xs), Sequence(ys)) =>
        && z.Sequence? && |z.items| == |xs| + |ys|
        && (forall i | 0 <= i < |xs| :: z.items[i] == xs[i])
        && (forall i | 0 <= i < |ys| :: z.items[|xs| + i] == ys[i])
      case (Scalar(_, _), Scalar(_, _)) => x == y == z
      case _ => false
  }

  /** A place that one side has is kept as it is. */
  ghost predicate Meets(x: Option<Node>, y: Option<Node>, z: Option<Node>) {
    if x.None? then z == y
    else if y.None? then z == x
    else z.Some? && Settles(x.value, y.value, z.value)
  }

  /** The sections whose keys name one thing each. */
  predicate NamesEntities(path: string) {
    || path == "models" || path == "groups" || path == "profiles" || path == "selectors"
    || path == "peers" || path == "matrix"
    || path == "routing.router.settings.groups" || path == "routing.router.settings.matrix"
  }

  /** The path with these keys after it, dots between them. */
  function Dotted(path: string, ks: seq<string>): string
    decreases |ks|
  {
    if ks == [] then path else Dotted(if path == "" then ks[0] else path + "." + ks[0], ks[1..])
  }

  /** Neither is null, and they are not of one kind, or scalars that differ. */
  predicate Clash(x: Node, y: Node) {
    && !IsNull(x) && !IsNull(y)
    && !(x.Mapping? && y.Mapping?) && !(x.Sequence? && y.Sequence?) && !(x.Scalar? && y == x)
  }

  ghost predicate ShareEntity(a: Node, b: Node, ks: seq<string>) {
    exists e :: Under(a, ks + [e]).Some? && Under(b, ks + [e]).Some?
  }

  /** The trees conflict in this place: they name one entity twice in a section of entities, or
      one of them has something else than a mapping there; elsewhere their values clash. */
  ghost predicate Conflicts(a: Node, b: Node, path: string, ks: seq<string>) {
    ConflictsBy(NamesEntities, a, b, path, ks)
  }

  ghost predicate ConflictsBy(names: string -> bool, a: Node, b: Node, path: string, ks: seq<string>) {
    var x, y := Under(a, ks), Under(b, ks);
    && x.Some? && y.Some?
    && if ks != [] && names(Dotted(path, ks))
       then !(x.value.Mapping? && y.value.Mapping?) || ShareEntity(a, b, ks)
       else Clash(x.value, y.value)
  }

  ghost predicate Conflicting(a: Node, b: Node, path: string) {
    exists ks :: Conflicts(a, b, path, ks)
  }

  // ---- Two trees ----

  lemma UnderOne(n: Node, k: string)
    ensures Under(n, [k]) == if n.Mapping? then Find(n.content, k) else None
  {
    assert [k][1..] == [];
  }

  lemma UnderNext(n: Node, ks: seq<string>)
    requires ks != [] && Under(n, ks).Some?
    ensures n.Mapping? && ks[0] in Keys(n.content)
  {
  }

  lemma DottedOne(path: string, k: string)
    ensures Dotted(path, [k]) == JoinPath(path, k)
  {
    assert [k][1..] == [];
  }

  lemma {:induction false} UnderMore(n: Node, ks: seq<string>, e: string)
    ensures Under(n, ks + [e]) == if Under(n, ks).Some? then Under(Under(n, ks).value, [e]) else None
    decreases |ks|
  {
    if ks == [] {
      assert ks + [e] == [e];
    } else if n.Mapping? && Find(n.content, ks[0]).Some? {
      UnderMore(Find(n.content, ks[0]).value, ks[1..], e);
      assert (ks + [e])[1..] == ks[1..] + [e];
    }
  }

  lemma ChildIsWellKeyed(n: Node, k: string)
    requires WellKeyed(n) && n.Mapping? && Find(n.content, k).Some?
    ensures WellKeyed(Find(n.content, k).value) && Find(n.content, k).value < n
  {
    assert Pair(k, Find(n.content, k).value) in n.content;
  }

  lemma IdentityMeets(x: Node, y: Node, ks: seq<string>)
    requires MergeIdentity(x, y).Some?
    ensures Meets(Under(x, ks), Under(y, ks), Under(MergeIdentity(x, y).value, ks))
  {
    if ks != [] {
      FindAppend(x.content, y.content, ks[0]);
      assert Find(x.content, ks[0]).None? || Find(y.content, ks[0]).None? by {
        assert !(ks[0] in Keys(x.content) && ks[0] in Keys(y.content));
      }
    }
  }

  /** When two trees merge, the result holds under any keys what comes of their two values there. */
  lemma {:induction false} TreesMeet(a: Node, b: Node, path: string, ks: seq<string>)
    requires WellKeyed(a) && WellKeyed(b) && Merge(a, b, path).Some?
    ensures Meets(Under(a, ks), Under(b, ks), Under(Merge(a, b, path).value, ks))
    decreases |ks|, 0
  {
    if ks == [] {
      RootsMeet(a, b, path);
    } else if a.Mapping? && b.Mapping? {
      var k := ks[0];
      ContentHolds(a.content, b.content, path);
      var r := Merge(a, b, path).value.content;
      assert At(r, k) == Join(At(a.content, k), At(b.content, k), JoinPath(path, k));
      if At(a.content, k).Present? && At(b.content, k).Present? {
        ChildMeets(a, b, path, k, ks[1..]);
      }
      FirstKey(a, b, Merge(a, b, path).value, ks);
    } else {
      OtherMeets(a, b, path, ks);
    }
  }

  /** Under the keys is what is under the rest of them in the value of the first. */
  lemma FirstKey(a: Node, b: Node, r: Node, ks: seq<string>)
    requires ks != [] && a.Mapping? && b.Mapping? && r.Mapping?
    requires var x, y, z := At(a.content, ks[0]), At(b.content, ks[0]), At(r.content, ks[0]);
      if x.Absent? then z == y
      else if y.Absent? then z == x
      else z.Present? && Meets(Under(x.node, ks[1..]), Under(y.node, ks[1..]), Under(z.node, ks[1..]))
    ensures Meets(Under(a, ks), Under(b, ks), Under(r, ks))
  {
  }

  lemma RootsMeet(a: Node, b: Node, path: string)
    requires Merge(a, b, path).Some?
    ensures Settles(a, b, Merge(a, b, path).value)
  {
  }

  /** Below null, lists and scalars there is nothing. */
  lemma OtherMeets(a: Node, b: Node, path: string, ks: seq<string>)
    requires ks != [] && Merge(a, b, path).Some? && !(a.Mapping? && b.Mapping?)
    ensures Meets(Under(a, ks), Under(b, ks), Under(Merge(a, b, path).value, ks))
  {
    RootsMeet(a, b, path);
  }

  lemma {:induction false} ChildMeets(a: Node, b: Node, path: string, k: string, rest: seq<string>)
    requires WellKeyed(a) && WellKeyed(b) && a.Mapping? && b.Mapping?
    requires Find(a.content, k).Some? && Find(b.content, k).Some?
    requires MergeKey(Find(a.content, k).value, Find(b.content, k).value, JoinPath(path, k)).Some?
    ensures var x, y := Find(a.content, k).value, Find(b.content, k).value;
      Meets(Under(x, rest), Under(y, rest), Under(MergeKey(x, y, JoinPath(path, k)).value, rest))
    decreases |rest|, 1
  {
    ChildIsWellKeyed(a, k);
    ChildIsWellKeyed(b, k);
    var x, y, p := Find(a.content, k).value, Find(b.content, k).value, JoinPath(path, k);
    if p in IDENTITY_MAPS {
      IdentityMeets(x, y, rest);
    } else {
      TreesMeet(x, y, p, rest);
    }
  }

  lemma NamesExactly(path: string)
    ensures NamesEntities(path) <==> path in IDENTITY_MAPS
  {
  }

  lemma {:induction false} ConflictFails(a: Node, b: Node, path: string, ks: seq<string>)
    requires WellKeyed(a) && WellKeyed(b) && Conflicts(a, b, path, ks)
    ensures Merge(a, b, path).None?
    decreases |ks|
  {
    if ks != [] {
      var k, p := ks[0], JoinPath(path, ks[0]);
      var x, y := Find(a.content, k).value, Find(b.content, k).value;
      ChildIsWellKeyed(a, k);
      ChildIsWellKeyed(b, k);
      NamesExactly(p);
      if p in IDENTITY_MAPS {
        SectionFails(NamesEntities, a, b, path, ks);
      } else {
        ConflictBelow(NamesEntities, a, b, path, ks);
        ConflictFails(x, y, p, ks[1..]);
      }
      FailedKeyFails(a.content, b.content, path, k);
    }
  }

  lemma ShareBelow(a: Node, b: Node, ks: seq<string>)
    requires ks != [] && a.Mapping? && b.Mapping? && Find(a.content, ks[0]).Some? && Find(b.content, ks[0]).Some?
    ensures ShareEntity(a, b, ks) <==> ShareEntity(Find(a.content, ks[0]).value, Find(b.content, ks[0]).value, ks[1..])
  {
    var x, y := Find(a.content, ks[0]).value, Find(b.content, ks[0]).value;
    forall e
      ensures Under(a, ks + [e]) == Under(x, ks[1..] + [e]) && Under(b, ks + [e]) == Under(y, ks[1..] + [e])
    {
      assert (ks + [e])[1..] == ks[1..] + [e];
    }
    if e :| Under(a, ks + [e]).Some? && Under(b, ks + [e]).Some? {
      assert Under(x, ks[1..] + [e]).Some? && Under(y, ks[1..] + [e]).Some?;
    }
    if e :| Under(x, ks[1..] + [e]).Some? && Under(y, ks[1..] + [e]).Some? {
      assert Under(a, ks + [e]).Some? && Under(b, ks + [e]).Some?;
    }
  }

  /** A conflict below a key that names no entities is one of the values of that key. */
  lemma ConflictBelow(names: string -> bool, a: Node, b: Node, path: string, ks: seq<string>)
    requires ks != [] && a.Mapping? && b.Mapping? && Find(a.content, ks[0]).Some? && Find(b.content, ks[0]).Some?
    requires !names(JoinPath(path, ks[0]))
    ensures ConflictsBy(names, a, b, path, ks) <==>
      ConflictsBy(names, Find(a.content, ks[0]).value, Find(b.content, ks[0]).value, JoinPath(path, ks[0]), ks[1..])
  {
    ShareBelow(a, b, ks);
    assert Under(a, ks) == Under(Find(a.content, ks[0]).value, ks[1..]);
    assert Under(b, ks) == Under(Find(b.content, ks[0]).value, ks[1..]);
    assert Dotted(path, ks) == Dotted(JoinPath(path, ks[0]), ks[1..]);
    assert ks[1..] == [] ==> Dotted(JoinPath(path, ks[0]), ks[1..]) == JoinPath(path, ks[0]);
  }

  /** A conflict in or below a section of entities. */
  lemma SectionFails(names: string -> bool, a: Node, b: Node, path: string, ks: seq<string>)
    requires ks != [] && ConflictsBy(names, a, b, path, ks) && names(JoinPath(path, ks[0]))
    ensures MergeIdentity(Find(a.content, ks[0]).value, Find(b.content, ks[0]).value).None?
  {
    var x, y := Find(a.content, ks[0]).value, Find(b.content, ks[0]).value;
    if |ks| > 1 {
      UnderNext(x, ks[1..]);
      UnderNext(y, ks[1..]);
    } else if x.Mapping? && y.Mapping? {
      assert ks == [ks[0]];
      DottedOne(path, ks[0]);
      UnderOne(a, ks[0]);
      UnderOne(b, ks[0]);
      var e :| Under(a, ks + [e]).Some? && Under(b, ks + [e]).Some?;
      assert (ks + [e])[1..] == [e];
      UnderOne(x, e);
      UnderOne(y, e);
    }
  }

  lemma {:induction false} FailureConflicts(a: Node, b: Node, path: string) returns (ks: seq<string>)
    requires WellKeyed(a) && WellKeyed(b) && Merge(a, b, path).None?
    ensures Conflicts(a, b, path, ks)
    decreases a
  {
    ks := [];
    if a.Mapping? && b.Mapping? {
      ContentHolds(a.content, b.content, path);
      var f :| Join(At(a.content, f), At(b.content, f), JoinPath(path, f)) == Failed;
      ChildIsWellKeyed(a, f);
      ChildIsWellKeyed(b, f);
      var x, y, p := Find(a.content, f).value, Find(b.content, f).value, JoinPath(path, f);
      NamesExactly(p);
      if p in IDENTITY_MAPS {
        ks := [f];
        SectionConflicts(NamesEntities, a, b, path, f);
      } else {
        var rest := FailureConflicts(x, y, p);
        ks := [f] + rest;
        assert ks[1..] == rest;
        ConflictBelow(NamesEntities, a, b, path, ks);
      }
    }
  }

  lemma SectionConflicts(names: string -> bool, a: Node, b: Node, path: string, f: string)
    requires a.Mapping? && b.Mapping? && Find(a.content, f).Some? && Find(b.content, f).Some?
    requires names(JoinPath(path, f))
    requires MergeIdentity(Find(a.content, f).value, Find(b.content, f).value).None?
    ensures ConflictsBy(names, a, b, path, [f])
  {
    var x, y := Find(a.content, f).value, Find(b.content, f).value;
    UnderOne(a, f);
    UnderOne(b, f);
    DottedOne(path, f);
    if x.Mapping? && y.Mapping? {
      var e :| e in Keys(x.content) && e in Keys(y.content);
      UnderMore(a, [f], e);
      UnderMore(b, [f], e);
      UnderOne(x, e);
      UnderOne(y, e);
      assert Under(a, [f] + [e]).Some? && Under(b, [f] + [e]).Some?;
    }
  }

  /** Two trees merge unless they conflict somewhere. */
  lemma MergeFailsExactly(a: Node, b: Node, path: string)
    requires WellKeyed(a) && WellKeyed(b)
    ensures Merge(a, b, path).None? <==> Conflicting(a, b, path)
  {
    if Merge(a, b, path).None? {
      var ks := FailureConflicts(a, b, path);
    } else if Conflicting(a, b, path) {
      var ks :| Conflicts(a, b, path, ks);
      ConflictFails(a, b, path, ks);
    }
  }

  // ---- Any number of sources ----

  lemma ClashSettles(x: Node, y: Node, z: Node, w: Node)
    requires Settles(x, y, z)
    ensures Clash(z, w) <==> Clash(x, w) || Clash(y, w)
  {
  }

  /** A merged tree conflicts in a place with just what its parts conflict with there. */
  lemma ConflictSplits(a: Node, b: Node, c: Node, path: string, ks: seq<string>)
    requires WellKeyed(a) && WellKeyed(b) && Merge(a, b, path).Some?
    ensures Conflicts(Merge(a, b, path).value, c, path, ks) <==> Conflicts(a, c, path, ks) || Conflicts(b, c, path, ks)
  {
    var r := Merge(a, b, path).value;
    TreesMeet(a, b, path, ks);
    MergeFailsExactly(a, b, path);
    assert !Conflicts(a, b, path, ks);
    EntitiesSplit(a, b, c, path, ks);
    var x, y, z, w := Under(a, ks), Under(b, ks), Under(r, ks), Under(c, ks);
    if x.Some? && y.Some? && w.Some? {
      ClashSettles(x.value, y.value, z.value, w.value);
    }
    if x.None? {
      NothingBelow(a, c, ks);
    }
    if y.None? {
      NothingBelow(b, c, ks);
    }
  }

  lemma NothingBelow(a: Node, c: Node, ks: seq<string>)
    requires Under(a, ks).None?
    ensures !ShareEntity(a, c, ks)
  {
    forall e
      ensures Under(a, ks + [e]).None?
    {
      UnderMore(a, ks, e);
    }
  }

  lemma EntitiesSplit(a: Node, b: Node, c: Node, path: string, ks: seq<string>)
    requires WellKeyed(a) && WellKeyed(b) && Merge(a, b, path).Some?
    ensures ShareEntity(Merge(a, b, path).value, c, ks) <==> ShareEntity(a, c, ks) || ShareEntity(b, c, ks)
  {
    var r := Merge(a, b, path).value;
    forall e
      ensures Under(r, ks + [e]).Some? <==> Under(a, ks + [e]).Some? || Under(b, ks + [e]).Some?
    {
      TreesMeet(a, b, path, ks + [e]);
    }
    if e :| Under(r, ks + [e]).Some? && Under(c, ks + [e]).Some? {
      assert Under(a, ks + [e]).Some? || Under(b, ks + [e]).Some?;
    }
    if e :| Under(a, ks + [e]).Some? && Under(c, ks + [e]).Some? {
      assert Under(r, ks + [e]).Some?;
    }
    if e :| Under(b, ks + [e]).Some? && Under(c, ks + [e]).Some? {
      assert Under(r, ks + [e]).Some?;
    }
  }

  lemma ConflictingSplits(a: Node, b: Node, c: Node, path: string)
    requires WellKeyed(a) && WellKeyed(b) && Merge(a, b, path).Some?
    ensures Conflicting(Merge(a, b, path).value, c, path) <==> Conflicting(a, c, path) || Conflicting(b, c, path)
  {
    forall ks
      ensures Conflicts(Merge(a, b, path).value, c, path, ks) <==> Conflicts(a, c, path, ks) || Conflicts(b, c, path, ks)
    {
      ConflictSplits(a, b, c, path, ks);
    }
  }

  /** The source has a tree, and it conflicts with this one. */
  ghost predicate Against(source: Option<seq<Pair>>, c: seq<Pair>) {
    source.Some? && Conflicting(Mapping(source.value), Mapping(c), "")
  }

  ghost predicate SomeAgainst(sources: seq<Option<seq<Pair>>>, c: seq<Pair>) {
    exists s :: s in sources && Against(s, c)
  }

  ghost predicate MergedAgainst(m: Merged, c: seq<Pair>) {
    m.Tree? && Conflicting(Mapping(m.content), Mapping(c), "")
  }

  lemma TogetherAgainst(m: Merged, last: Option<seq<Pair>>, c: seq<Pair>)
    requires Sound(m) && Sound(Single(last)) && !Together(m, Single(last)).Conflict?
    ensures MergedAgainst(Together(m, Single(last)), c) <==> MergedAgainst(m, c) || Against(last, c)
  {
    if m.Tree? && last.Some? {
      ConflictingSplits(Mapping(m.content), Mapping(last.value), Mapping(c), "");
    }
  }

  lemma TogetherFails(m: Merged, last: Option<seq<Pair>>)
    requires Sound(m) && Sound(Single(last)) && !m.Conflict?
    ensures Together(m, Single(last)).Conflict? <==> last.Some? && MergedAgainst(m, last.value)
  {
    if m.Tree? && last.Some? {
      MergeFailsExactly(Mapping(m.content), Mapping(last.value), "");
    }
  }

  lemma SomeAgainstLast(init: seq<Option<seq<Pair>>>, last: Option<seq<Pair>>, c: seq<Pair>)
    ensures SomeAgainst(init + [last], c) <==> SomeAgainst(init, c) || Against(last, c)
  {
    var sources := init + [last];
    if s :| s in init && Against(s, c) {
      assert s in sources;
    }
    assert last in sources;
  }

  /** What was loaded so far conflicts with a tree exactly when one of its sources does. */
  lemma {:induction false} MergedConflictsAs(sources: seq<Option<seq<Pair>>>, c: seq<Pair>)
    requires SourcesSound(sources) && !MergeSources(sources).Conflict?
    ensures MergedAgainst(MergeSources(sources), c) <==> SomeAgainst(sources, c)
  {
    if sources != [] {
      var init, last := sources[..|sources| - 1], sources[|sources| - 1];
      assert sources == init + [last];
      LastIsSound(init, last);
      MergedConflictsAs(init, c);
      TogetherAgainst(MergeSources(init), last, c);
      SomeAgainstLast(init, last, c);
    }
  }

  lemma LastIsSound(init: seq<Option<seq<Pair>>>, last: Option<seq<Pair>>)
    requires SourcesSound(init + [last])
    ensures SourcesSound(init) && Sound(MergeSources(init)) && Sound(Single(last))
    ensures MergeSources(init + [last]) == Together(MergeSources(init), Single(last))
  {
    var sources := init + [last];
    assert last in sources && sources[..|sources| - 1] == init;
    assert forall s | s in init :: s in sources;
    SourcesGiveSound(init);
  }

  /** Two of the sources conflict, the one with the other. */
  ghost predicate TwoConflict(sources: seq<Option<seq<Pair>>>) {
    exists i: nat, j: nat :: i < j < |sources| && sources[j].Some? && Against(sources[i], sources[j].value)
  }

  /** Loading any number of sources fails exactly when two of them conflict. */
  lemma {:induction false} LoadFailsExactly(sources: seq<Option<seq<Pair>>>)
    requires SourcesSound(sources)
    ensures MergeSources(sources).Conflict? <==> TwoConflict(sources)
  {
    if sources != [] {
      var init, last := sources[..|sources| - 1], sources[|sources| - 1];
      assert sources == init + [last];
      LastIsSound(init, last);
      LoadFailsExactly(init);
      LastConflicts(init, last);
      if !MergeSources(init).Conflict? {
        TogetherFails(MergeSources(init), last);
        if last.Some? {
          MergedConflictsAs(init, last.value);
        }
      }
    }
  }

  lemma LastConflicts(init: seq<Option<seq<Pair>>>, last: Option<seq<Pair>>)
    ensures TwoConflict(init + [last]) <==>
      TwoConflict(init) || (last.Some? && SomeAgainst(init, last.value))
  {
    var sources := init + [last];
    if TwoConflict(sources) {
      var i: nat, j: nat :| i < j < |sources| && sources[j].Some? && Against(sources[i], sources[j].value);
      if j < |init| {
        assert init[j].Some? && Against(init[i], init[j].value);
      } else {
        assert init[i] in init;
      }
    }
    if TwoConflict(init) {
      var i: nat, j: nat :| i < j < |init| && init[j].Some? && Against(init[i], init[j].value);
      assert sources[j].Some? && Against(sources[i], sources[j].value);
    }
    if last.Some? && SomeAgainst(init, last.value) {
      var s :| s in init && Against(s, last.value);
      var i: nat :| i < |init| && init[i] == s;
      assert sources[|init|].Some? && Against(sources[i], sources[|init|].value);
    }
  }

  /** What the source holds under the keys. */
  function Holds(source: Option<seq<Pair>>, ks: seq<string>): Option<Node> {
    if source.Some? then Under(Mapping(source.value), ks) else None
  }

  function ItemsOf(x: Option<Node>): seq<Node> {
    if x.Some? && x.value.Sequence? then x.value.items else []
  }

  /** The items that the sources list under the keys, source after source. */
  function Listed(sources: seq<Option<seq<Pair>>>, ks: seq<string>): seq<Node> {
    if sources == [] then []
    else Listed(sources[..|sources| - 1], ks) + ItemsOf(Holds(sources[|sources| - 1], ks))
  }

  ghost predicate SomeHold(sources: seq<Option<seq<Pair>>>, ks: seq<string>) {
    exists s :: s in sources && Holds(s, ks).Some?
  }

  function Held(m: Merged, ks: seq<string>): Option<Node> {
    if m.Tree? then Under(Mapping(m.content), ks) else None
  }

  /** Each source is merged into what came before under every keys alike; one without a tree
      changes nothing. */
  lemma TogetherMeets(m: Merged, last: Option<seq<Pair>>, ks: seq<string>)
    requires Sound(m) && Sound(Single(last)) && !Together(m, Single(last)).Conflict?
    ensures Meets(Held(m, ks), Holds(last, ks), Held(Together(m, Single(last)), ks))
  {
    if m.Tree? && last.Some? {
      TreesMeet(Mapping(m.content), Mapping(last.value), "", ks);
    }
  }

  /** When every source that has something under the keys has a list there, the loaded tree has
      the lists one after another, in the order of the sources. */
  lemma {:induction false} ListsAreJoined(sources: seq<Option<seq<Pair>>>, ks: seq<string>)
    requires SourcesSound(sources) && !MergeSources(sources).Conflict?
    requires forall s | s in sources && Holds(s, ks).Some? :: Holds(s, ks).value.Sequence?
    ensures Held(MergeSources(sources), ks) ==
      if SomeHold(sources, ks) then Some(Sequence(Listed(sources, ks))) else None
    ensures !SomeHold(sources, ks) ==> Listed(sources, ks) == []
  {
    if sources != [] {
      var init, last := sources[..|sources| - 1], sources[|sources| - 1];
      assert sources == init + [last];
      ListsAreJoined(init, ks);
      SourcesGiveSound(init);
      assert last in sources;
      TogetherMeets(MergeSources(init), last, ks);
      assert MergeSources(sources) == Together(MergeSources(init), Single(last));
      assert Listed(sources, ks) == Listed(init, ks) + ItemsOf(Holds(last, ks));
      JoinedList(Held(MergeSources(init), ks), Holds(last, ks), Held(MergeSources(sources), ks));
      SomeHoldLast(init, last, ks);
    }
  }

  lemma SomeHoldLast(init: seq<Option<seq<Pair>>>, last: Option<seq<Pair>>, ks: seq<string>)
    ensures SomeHold(init + [last], ks) <==> SomeHold(init, ks) || Holds(last, ks).Some?
  {
    var sources := init + [last];
    if s :| s in init && Holds(s, ks).Some? {
      assert s in sources;
    }
    assert last in sources;
  }

  lemma JoinedList(x: Option<Node>, y: Option<Node>, z: Option<Node>)
    requires Meets(x, y, z) && (x.Some? ==> x.value.Sequence?) && (y.Some? ==> y.value.Sequence?)
    ensures z == if x.Some? || y.Some? then Some(Sequence(ItemsOf(x) + ItemsOf(y))) else None
  {
    if x.Some? && y.Some? {
      assert z.value.items == x.value.items + y.value.items;
    } else {
      assert ItemsOf(x) + [] == ItemsOf(x) && [] + ItemsOf(y) == ItemsOf(y);
    }
  }

  /** Two lists outside the sections of entities always merge, into the items of the first and
      then those of the second; in place of such a section they conflict. */
  lemma ListsConcatenate(a: seq<Node>, b: seq<Node>, path: string)
    ensures var r := MergeKey(Sequence(a), Sequence(b), path);
      if NamesEntities(path) then r.None? else
        && r.Some? && r.value.Sequence? && |r.value.items| == |a| + |b|
        && (forall i | 0 <= i < |a| :: r.value.items[i] == a[i])
        && (forall i | 0 <= i < |b| :: r.value.items[|a| + i] == b[i])
  {
  }

  /** Sections of entities are put together, the entities of the first before those of the
      second, exactly when no entity is in both. */
  lemma EntitiesConcatenate(a: seq<Pair>, b: seq<Pair>, section: string)
    requires NamesEntities(section)
    ensures var r := MergeKey(Mapping(a), Mapping(b), section);
      if exists i: nat, j: nat :: i < |a| && j < |b| && a[i].key == b[j].key then r.None? else
        && r.Some? && r.value.Mapping? && |r.value.content| == |a| + |b|
        && (forall i | 0 <= i < |a| :: r.value.content[i] == a[i])
        && (forall i | 0 <= i < |b| :: r.value.content[|a| + i] == b[i])
  {
    NamesExactly(section);
    if Shares(a, b) {
      var k :| k in Keys(a) && k in Keys(b);
      var i: nat :| i < |a| && Keys(a)[i] == k;
      var j: nat :| j < |b| && Keys(b)[j] == k;
      assert a[i].key == b[j].key;
    } else {
      forall i: nat, j: nat | i < |a| && j < |b|
        ensures a[i].key != b[j].key
      {
        assert Keys(a)[i] in Keys(a) && Keys(b)[j] in Keys(b);
      }
    }
  }
}
