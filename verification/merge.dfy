/** Merging configuration sources (internal/config/merge.go), on parsed trees without aliases.

    A merge either fails or yields a tree; None is a failure. What the errors say is left aside. */
module ConfigMerge {
  import opened Names

  datatype Pair = Pair(key: string, value: Node)

  /** A parsed tree. Nothing is a node without a kind. */
  datatype Node =
    | Mapping(content: seq<Pair>)
    | Sequence(items: seq<Node>)
    | Scalar(tag: string, text: string)
    | Nothing

  /** The maps whose keys name one thing each: a key in two sources is an error. */
  const IDENTITY_MAPS := {
    "models", "groups", "profiles", "selectors", "peers", "matrix",
    "routing.router.settings.groups", "routing.router.settings.matrix"
  }

  predicate IsNullScalar(n: Node) {
    n.Scalar? && (n.tag == "!!null" || n.tag == "") && n.text == ""
  }

  predicate IsNull(n: Node) {
    n.Nothing? || IsNullScalar(n)
  }

  function JoinPath(parent: string, key: string): string {
    if parent == "" then key else parent + "." + key
  }

  // ---- Keys ----

  function Keys(content: seq<Pair>): (ks: seq<string>)
    ensures |ks| == |content| && forall i | 0 <= i < |ks| :: ks[i] == content[i].key
  {
    if content == [] then [] else Keys(content[..|content| - 1]) + [content[|content| - 1].key]
  }

  /** The last value under the key. */
  function Find(content: seq<Pair>, key: string): (v: Option<Node>)
    ensures v.Some? <==> key in Keys(content)
    ensures v.Some? ==> exists i :: 0 <= i < |content| && content[i] == Pair(key, v.value)
  {
    if content == [] then None
    else
      var last := content[|content| - 1];
      if last.key == key then assert content[|content| - 1] == Pair(key, last.value); Some(last.value)
      else Find(content[..|content| - 1], key)
  }

  /** The pairs of src whose keys dst does not have. */
  function Fresh(dst: seq<Pair>, src: seq<Pair>): seq<Pair> {
    if src == [] then []
    else
      var last := src[|src| - 1];
      var rest := Fresh(dst, src[..|src| - 1]);
      if last.key in Keys(dst) then rest else rest + [last]
  }

  predicate Shares(a: seq<Pair>, b: seq<Pair>) {
    exists k :: k in Keys(a) && k in Keys(b)
  }

  // ---- Merging ----

  /** mergeValue. */
  function Merge(dst: Node, src: Node, path: string): Option<Node>
    decreases dst, 0
  {
    if dst.Mapping? && src.Mapping? then
      var content := MergeContent(dst.content, src.content, path);
      if content.None? then None else Some(Mapping(content.value))
    else if dst.Sequence? && src.Sequence? then Some(Sequence(dst.items + src.items))
    else if dst.Scalar? && src.Scalar? then
      if IsNullScalar(dst) then Some(src)
      else if IsNullScalar(src) then Some(dst)
      else if dst.text == src.text && dst.tag == src.tag then Some(dst)
      else None
    else if IsNull(dst) then Some(src)
    else if IsNull(src) then Some(dst)
    else None
  }

  /** mergeIdentityMap. */
  function MergeIdentity(dst: Node, src: Node): Option<Node> {
    if dst.Mapping? && src.Mapping? && !Shares(dst.content, src.content)
    then Some(Mapping(dst.content + src.content)) else None
  }

  /** The values of a key that both sides have. */
  function MergeKey(dst: Node, src: Node, childPath: string): Option<Node>
    decreases dst, 1
  {
    if childPath in IDENTITY_MAPS then MergeIdentity(dst, src) else Merge(dst, src, childPath)
  }

  /** The first pass: dst with the values of shared keys merged. */
  function MergeShared(dst: seq<Pair>, src: seq<Pair>, path: string): Option<seq<Pair>>
    decreases dst, 0
  {
    if dst == [] then Some([])
    else
      var last := dst[|dst| - 1];
      var rest := MergeShared(dst[..|dst| - 1], src, path);
      var other := Find(src, last.key);
      if rest.None? then None
      else if other.None? then Some(rest.value + [last])
      else
        var v := MergeKey(last.value, other.value, JoinPath(path, last.key));
        if v.None? then None else Some(rest.value + [Pair(last.key, v.value)])
  }

  /** mergeNodes. */
  function MergeContent(dst: seq<Pair>, src: seq<Pair>, path: string): Option<seq<Pair>>
    decreases dst, 1
  {
    var shared := MergeShared(dst, src, path);
    if shared.None? then None else Some(shared.value + Fresh(dst, src))
  }

  // ---- Trees whose mappings repeat no key ----

  ghost predicate Distinct(content: seq<Pair>) {
    NoDup(Keys(content))
  }

  ghost predicate WellKeyed(n: Node) {
    match n
    case Mapping(content) => Distinct(content) && forall p | p in content :: WellKeyed(p.value)
    case Sequence(items) => forall x | x in items :: WellKeyed(x)
    case _ => true
  }

  // ---- What a merge of mappings holds, key by key ----

  lemma {:induction false} KeysAppend(x: seq<Pair>, y: seq<Pair>)
    ensures Keys(x + y) == Keys(x) + Keys(y)
  {
  }

  lemma KeysOne(p: Pair)
    ensures Keys([p]) == [p.key]
  {
  }

  lemma {:induction false} FindAppend(x: seq<Pair>, y: seq<Pair>, k: string)
    ensures Find(x + y, k) == if Find(y, k).Some? then Find(y, k) else Find(x, k)
  {
    if y == [] {
      assert x + y == x;
    } else {
      FindAppend(x, y[..|y| - 1], k);
      assert (x + y)[..|x + y| - 1] == x + y[..|y| - 1];
    }
  }

  lemma FindOne(p: Pair, k: string)
    ensures Find([p], k) == if p.key == k then Some(p.value) else None
  {
    assert [p][..0] == [];
  }

  function Minus(ks: seq<string>, gone: seq<string>): seq<string> {
    if ks == [] then []
    else
      var last := ks[|ks| - 1];
      var rest := Minus(ks[..|ks| - 1], gone);
      if last in gone then rest else rest + [last]
  }

  lemma {:induction false} FreshKeys(dst: seq<Pair>, src: seq<Pair>)
    ensures Keys(Fresh(dst, src)) == Minus(Keys(src), Keys(dst))
  {
    if src != [] {
      var init, last := src[..|src| - 1], src[|src| - 1];
      FreshKeys(dst, init);
      assert Keys(src)[..|src| - 1] == Keys(init);
      KeysAppend(Fresh(dst, init), [last]);
      KeysOne(last);
    }
  }

  lemma {:induction false} FreshHolds(dst: seq<Pair>, src: seq<Pair>, k: string)
    ensures Find(Fresh(dst, src), k) == if k in Keys(dst) then None else Find(src, k)
  {
    if src != [] {
      var init, last := src[..|src| - 1], src[|src| - 1];
      FreshHolds(dst, init, k);
      FindAppend(Fresh(dst, init), [last], k);
      FindOne(last, k);
    }
  }

  /** What one side has under a key, or what became of it. */
  datatype Slot = Absent | Present(node: Node) | Failed

  function At(content: seq<Pair>, k: string): Slot {
    if Find(content, k).Some? then Present(Find(content, k).value) else Absent
  }

  /** A key that one side has is kept; values of a shared key are merged. */
  function Join(x: Slot, y: Slot, childPath: string): Slot {
    if x.Failed? || y.Failed? then Failed
    else if x.Absent? then y
    else if y.Absent? then x
    else
      var v := MergeKey(x.node, y.node, childPath);
      if v.Some? then Present(v.value) else Failed
  }

  /** One more pair at the end. */
  lemma DistinctSplit(init: seq<Pair>, last: Pair)
    requires Distinct(init + [last])
    ensures Distinct(init) && last.key !in Keys(init) && Keys(init + [last]) == Keys(init) + [last.key]
  {
    KeysAppend(init, [last]);
    KeysOne(last);
    var ks := Keys(init + [last]);
    assert ks[|init|] == last.key;
    assert forall i :: 0 <= i < |init| ==> ks[i] == Keys(init)[i];
  }

  lemma AtAppend(init: seq<Pair>, last: Pair, k: string)
    ensures At(init + [last], k) == if k == last.key then Present(last.value) else At(init, k)
  {
    FindAppend(init, [last], k);
    FindOne(last, k);
  }

  /** The value that the first pass leaves with a pair of dst. */
  function Passed(last: Pair, src: seq<Pair>, path: string): Slot {
    Join(Present(last.value), At(src, last.key), JoinPath(path, last.key))
  }

  lemma SharedSnoc(init: seq<Pair>, last: Pair, src: seq<Pair>, path: string)
    ensures var rest, v := MergeShared(init, src, path), Passed(last, src, path);
      MergeShared(init + [last], src, path) ==
      if rest.None? || v.Failed? then None else Some(rest.value + [Pair(last.key, v.node)])
  {
    var dst := init + [last];
    assert dst[..|dst| - 1] == init;
  }

  /** The first pass keeps the keys of dst in order ... */
  lemma {:induction false} SharedKeys(dst: seq<Pair>, src: seq<Pair>, path: string)
    requires MergeShared(dst, src, path).Some?
    ensures Keys(MergeShared(dst, src, path).value) == Keys(dst)
  {
    if dst != [] {
      var init, last := dst[..|dst| - 1], dst[|dst| - 1];
      assert dst == init + [last];
      SharedSnoc(init, last, src, path);
      SharedKeys(init, src, path);
      var rest, v := MergeShared(init, src, path).value, Passed(last, src, path);
      KeysAppend(rest, [Pair(last.key, v.node)]);
      KeysOne(Pair(last.key, v.node));
      KeysAppend(init, [last]);
      KeysOne(last);
    }
  }

  /** ... and joins each with src. */
  lemma {:induction false} SharedHolds(dst: seq<Pair>, src: seq<Pair>, path: string, k: string)
    requires Distinct(dst) && MergeShared(dst, src, path).Some?
    ensures At(MergeShared(dst, src, path).value, k) ==
            if k in Keys(dst) then Join(At(dst, k), At(src, k), JoinPath(path, k)) else Absent
  {
    if dst != [] {
      var init, last := dst[..|dst| - 1], dst[|dst| - 1];
      assert dst == init + [last];
      DistinctSplit(init, last);
      SharedSnoc(init, last, src, path);
      SharedHolds(init, src, path, k);
      var rest, v := MergeShared(init, src, path).value, Passed(last, src, path);
      AtAppend(rest, Pair(last.key, v.node), k);
      AtAppend(init, last, k);
    }
  }

  lemma InitAndLast(content: seq<Pair>)
    requires content != []
    ensures content == content[..|content| - 1] + [content[|content| - 1]]
  {
  }

  lemma {:induction false} SharedFails(dst: seq<Pair>, src: seq<Pair>, path: string) returns (f: string)
    requires Distinct(dst) && MergeShared(dst, src, path).None?
    ensures Join(At(dst, f), At(src, f), JoinPath(path, f)) == Failed
  {
    var init, last := dst[..|dst| - 1], dst[|dst| - 1];
    InitAndLast(dst);
    DistinctSplit(init, last);
    SharedSnoc(init, last, src, path);
    if MergeShared(init, src, path).None? {
      f := SharedFails(init, src, path);
      AtAppend(init, last, f);
      assert f in Keys(init);
    } else {
      f := last.key;
      AtAppend(init, last, f);
    }
  }

  /** A merge of mappings fails when some key fails, and else holds under each key what joining
      that key gives, the keys of the first side first. */
  lemma ContentHolds(dst: seq<Pair>, src: seq<Pair>, path: string)
    requires Distinct(dst)
    ensures var r := MergeContent(dst, src, path);
      if r.None? then exists f :: Join(At(dst, f), At(src, f), JoinPath(path, f)) == Failed
      else
        && Keys(r.value) == Keys(dst) + Minus(Keys(src), Keys(dst))
        && forall k :: At(r.value, k) == Join(At(dst, k), At(src, k), JoinPath(path, k))
  {
    var shared := MergeShared(dst, src, path);
    if shared.None? {
      var f := SharedFails(dst, src, path);
    } else {
      SharedKeys(dst, src, path);
      KeysAppend(shared.value, Fresh(dst, src));
      FreshKeys(dst, src);
      forall k
        ensures At(shared.value + Fresh(dst, src), k) == Join(At(dst, k), At(src, k), JoinPath(path, k))
      {
        SharedHolds(dst, src, path, k);
        FreshHolds(dst, src, k);
        FindAppend(shared.value, Fresh(dst, src), k);
      }
    }
  }

  /** A merge of mappings that are well keyed repeats no key. */
  lemma ContentDistinct(dst: seq<Pair>, src: seq<Pair>, path: string)
    requires Distinct(dst) && Distinct(src) && MergeContent(dst, src, path).Some?
    ensures Distinct(MergeContent(dst, src, path).value)
  {
    ContentHolds(dst, src, path);
    NoDupApart(Keys(dst), Keys(src));
  }

  lemma NoDupApart(a: seq<string>, b: seq<string>)
    requires NoDup(a) && NoDup(b)
    ensures NoDup(a + Minus(b, a))
  {
    MinusKeeps(b, a);
    var m := Minus(b, a);
    forall i, j | 0 <= i < j < |a + m|
      ensures (a + m)[i] != (a + m)[j]
    {
      if i < |a| <= j {
        assert m[j - |a|] in m;
      }
    }
  }

  lemma {:induction false} MinusKeeps(ks: seq<string>, gone: seq<string>)
    ensures forall k :: k in Minus(ks, gone) <==> k in ks && k !in gone
    ensures NoDup(ks) ==> NoDup(Minus(ks, gone))
  {
    if ks != [] {
      MinusKeeps(ks[..|ks| - 1], gone);
      assert ks == ks[..|ks| - 1] + [ks[|ks| - 1]];
    }
  }

  /** Mappings with the same keys in the same order and the same values are the same. */
  lemma {:induction false} SameContent(x: seq<Pair>, y: seq<Pair>)
    requires Distinct(x) && Keys(x) == Keys(y) && forall k :: At(x, k) == At(y, k)
    ensures x == y
  {
    forall i | 0 <= i < |x|
      ensures x[i] == y[i]
    {
      FindsAt(x, i);
      assert Distinct(y);
      FindsAt(y, i);
      assert At(x, Keys(x)[i]) == At(y, Keys(y)[i]);
    }
  }

  lemma FindsAt(x: seq<Pair>, i: nat)
    requires Distinct(x) && i < |x|
    ensures Find(x, x[i].key) == Some(x[i].value)
  {
    assert Keys(x)[i] == x[i].key;
    var v := Find(x, x[i].key);
    var j :| 0 <= j < |x| && x[j] == Pair(x[i].key, v.value);
    assert Keys(x)[j] == Keys(x)[i];
  }

  // ---- Associativity ----

  function LeftFirst(a: Node, b: Node, c: Node, path: string): Option<Node> {
    var ab := Merge(a, b, path);
    if ab.None? then None else Merge(ab.value, c, path)
  }

  function RightFirst(a: Node, b: Node, c: Node, path: string): Option<Node> {
    var bc := Merge(b, c, path);
    if bc.None? then None else Merge(a, bc.value, path)
  }

  /** Merging is associative: it fails either way or gives the same tree, with its keys in the
      same order, whatever maps of unique entities lie on the way. */
  lemma {:induction false} MergeAssociative(a: Node, b: Node, c: Node, path: string)
    requires WellKeyed(a) && WellKeyed(b) && WellKeyed(c)
    ensures LeftFirst(a, b, c, path) == RightFirst(a, b, c, path)
    decreases a, 2
  {
    if a.Mapping? && b.Mapping? && c.Mapping? {
      ContentAssociative(a.content, b.content, c.content, path);
    } else if a.Sequence? && b.Sequence? && c.Sequence? {
      assert (a.items + b.items) + c.items == a.items + (b.items + c.items);
    }
  }

  ghost predicate AllWellKeyed(content: seq<Pair>) {
    Distinct(content) && forall p | p in content :: WellKeyed(p.value)
  }

  lemma {:induction false} ContentAssociative(a: seq<Pair>, b: seq<Pair>, c: seq<Pair>, path: string)
    requires AllWellKeyed(a) && AllWellKeyed(b) && AllWellKeyed(c)
    ensures LeftFirst(Mapping(a), Mapping(b), Mapping(c), path) == RightFirst(Mapping(a), Mapping(b), Mapping(c), path)
    decreases a, 1
  {
    forall k
      ensures JoinsAlike(At(a, k), At(b, k), At(c, k), JoinPath(path, k))
    {
      JoinAssociative(a, b, c, path, k);
    }
    BothWays(a, b, c, path);
  }

  ghost predicate JoinsAlike(x: Slot, y: Slot, z: Slot, p: string) {
    Join(Join(x, y, p), z, p) == Join(x, Join(y, z, p), p)
  }

  lemma {:induction false} JoinAssociative(a: seq<Pair>, b: seq<Pair>, c: seq<Pair>, path: string, k: string)
    requires AllWellKeyed(a) && AllWellKeyed(b) && AllWellKeyed(c)
    ensures JoinsAlike(At(a, k), At(b, k), At(c, k), JoinPath(path, k))
    decreases a, 0
  {
    if At(a, k).Present? && At(b, k).Present? && At(c, k).Present? {
      var x, y, z := Find(a, k).value, Find(b, k).value, Find(c, k).value;
      assert Pair(k, x) in a && Pair(k, y) in b && Pair(k, z) in c;
      var p := JoinPath(path, k);
      if p in IDENTITY_MAPS {
        IdentityAssociative(x, y, z);
      } else {
        MergeAssociative(x, y, z, p);
      }
    }
  }

  lemma SharesAppend(a: seq<Pair>, b: seq<Pair>, c: seq<Pair>)
    ensures Shares(a, b + c) <==> Shares(a, b) || Shares(a, c)
  {
    KeysAppend(b, c);
    if k :| k in Keys(a) && k in Keys(b) {
      assert k in Keys(b + c);
    } else if k :| k in Keys(a) && k in Keys(c) {
      assert k in Keys(b + c);
    }
  }

  lemma SharesBack(a: seq<Pair>, b: seq<Pair>)
    ensures Shares(a, b) <==> Shares(b, a)
  {
  }

  /** Maps of unique entities are put together when no two of them share a key. */
  lemma IdentityAssociative(x: Node, y: Node, z: Node)
    ensures var xy, yz := MergeIdentity(x, y), MergeIdentity(y, z);
      (if xy.None? then None else MergeIdentity(xy.value, z)) == (if yz.None? then None else MergeIdentity(x, yz.value))
  {
    if x.Mapping? && y.Mapping? && z.Mapping? {
      assert (x.content + y.content) + z.content == x.content + (y.content + z.content);
      SharesAppend(x.content, y.content, z.content);
      SharesAppend(z.content, x.content, y.content);
      SharesBack(z.content, x.content);
      SharesBack(z.content, y.content);
      SharesBack(z.content, x.content + y.content);
    }
  }

  /** A key's value when the first two are merged first, and when the last two are. */
  function JoinLeft(a: seq<Pair>, b: seq<Pair>, c: seq<Pair>, path: string, k: string): Slot {
    var p := JoinPath(path, k);
    Join(Join(At(a, k), At(b, k), p), At(c, k), p)
  }

  function JoinRight(a: seq<Pair>, b: seq<Pair>, c: seq<Pair>, path: string, k: string): Slot {
    var p := JoinPath(path, k);
    Join(At(a, k), Join(At(b, k), At(c, k), p), p)
  }

  lemma LeftContent(a: seq<Pair>, b: seq<Pair>, c: seq<Pair>, path: string) returns (r: Option<seq<Pair>>)
    requires Distinct(a) && Distinct(b) && Distinct(c)
    ensures LeftFirst(Mapping(a), Mapping(b), Mapping(c), path) == if r.None? then None else Some(Mapping(r.value))
    ensures if r.None? then exists f :: JoinLeft(a, b, c, path, f) == Failed
      else
        && Distinct(r.value) && Keys(r.value) == Keys(a) + Minus(Keys(b), Keys(a)) + Minus(Keys(c), Keys(a) + Minus(Keys(b), Keys(a)))
        && forall k :: At(r.value, k) == JoinLeft(a, b, c, path, k)
  {
    ContentHolds(a, b, path);
    var ab := MergeContent(a, b, path);
    if ab.None? {
      r := None;
      var f :| Join(At(a, f), At(b, f), JoinPath(path, f)) == Failed;
      assert JoinLeft(a, b, c, path, f) == Failed;
    } else {
      ContentDistinct(a, b, path);
      ContentHolds(ab.value, c, path);
      r := MergeContent(ab.value, c, path);
      if r.None? {
        var f :| Join(At(ab.value, f), At(c, f), JoinPath(path, f)) == Failed;
        assert JoinLeft(a, b, c, path, f) == Failed;
      } else {
        ContentDistinct(ab.value, c, path);
      }
    }
  }

  lemma RightContent(a: seq<Pair>, b: seq<Pair>, c: seq<Pair>, path: string) returns (r: Option<seq<Pair>>)
    requires Distinct(a) && Distinct(b) && Distinct(c)
    ensures RightFirst(Mapping(a), Mapping(b), Mapping(c), path) == if r.None? then None else Some(Mapping(r.value))
    ensures if r.None? then exists f :: JoinRight(a, b, c, path, f) == Failed
      else
        && Keys(r.value) == Keys(a) + Minus(Keys(b) + Minus(Keys(c), Keys(b)), Keys(a))
        && forall k :: At(r.value, k) == JoinRight(a, b, c, path, k)
  {
    ContentHolds(b, c, path);
    var bc := MergeContent(b, c, path);
    if bc.None? {
      r := None;
      var f :| Join(At(b, f), At(c, f), JoinPath(path, f)) == Failed;
      assert JoinRight(a, b, c, path, f) == Failed;
    } else {
      ContentHolds(a, bc.value, path);
      r := MergeContent(a, bc.value, path);
      if r.None? {
        var f :| Join(At(a, f), At(bc.value, f), JoinPath(path, f)) == Failed;
        assert JoinRight(a, b, c, path, f) == Failed;
      }
    }
  }

  lemma {:induction false} MinusAppend(x: seq<string>, y: seq<string>, gone: seq<string>)
    ensures Minus(x + y, gone) == Minus(x, gone) + Minus(y, gone)
  {
    if y == [] {
      assert x + y == x;
    } else {
      MinusAppend(x, y[..|y| - 1], gone);
      assert (x + y)[..|x + y| - 1] == x + y[..|y| - 1];
    }
  }

  lemma {:induction false} MinusTwice(ks: seq<string>, first: seq<string>, second: seq<string>, both: seq<string>)
    requires forall k | k in ks :: k in both <==> k in first || k in second
    ensures Minus(Minus(ks, first), second) == Minus(ks, both)
  {
    if ks != [] {
      MinusTwice(ks[..|ks| - 1], first, second, both);
      var rest := Minus(ks[..|ks| - 1], first);
      assert (rest + [ks[|ks| - 1]])[..|rest|] == rest;
      assert ks[|ks| - 1] in ks;
    }
  }

  /** The keys come in the same order either way. */
  lemma KeysAlike(a: seq<string>, b: seq<string>, c: seq<string>)
    ensures a + Minus(b, a) + Minus(c, a + Minus(b, a)) == a + Minus(b + Minus(c, b), a)
  {
    MinusAppend(b, Minus(c, b), a);
    MinusKeeps(b, a);
    MinusTwice(c, b, a, a + Minus(b, a));
  }

  /** When every key joins alike, the mappings merge alike. */
  lemma BothWays(a: seq<Pair>, b: seq<Pair>, c: seq<Pair>, path: string)
    requires Distinct(a) && Distinct(b) && Distinct(c)
    requires forall k :: JoinsAlike(At(a, k), At(b, k), At(c, k), JoinPath(path, k))
    ensures LeftFirst(Mapping(a), Mapping(b), Mapping(c), path) == RightFirst(Mapping(a), Mapping(b), Mapping(c), path)
  {
    var l := LeftContent(a, b, c, path);
    var r := RightContent(a, b, c, path);
    KeysAlike(Keys(a), Keys(b), Keys(c));
    forall k
      ensures JoinLeft(a, b, c, path, k) == JoinRight(a, b, c, path, k)
      ensures l.Some? || r.Some? ==> JoinLeft(a, b, c, path, k) != Failed
    {
      assert JoinsAlike(At(a, k), At(b, k), At(c, k), JoinPath(path, k));
      assert l.Some? ==> JoinLeft(a, b, c, path, k) == At(l.value, k);
      assert r.Some? ==> JoinRight(a, b, c, path, k) == At(r.value, k);
    }
    if l.Some? && r.Some? {
      SameContent(l.value, r.value);
    }
  }

  // ---- Merging keeps mappings from repeating keys ----

  lemma {:induction false} MergeWellKeyed(a: Node, b: Node, path: string)
    requires WellKeyed(a) && WellKeyed(b) && Merge(a, b, path).Some?
    ensures WellKeyed(Merge(a, b, path).value)
    decreases a, 1
  {
    if a.Mapping? && b.Mapping? {
      ContentWellKeyed(a.content, b.content, path);
    } else if a.Sequence? && b.Sequence? {
    }
  }

  lemma ContentWellKeyed(a: seq<Pair>, b: seq<Pair>, path: string)
    requires AllWellKeyed(a) && AllWellKeyed(b) && MergeContent(a, b, path).Some?
    ensures AllWellKeyed(MergeContent(a, b, path).value)
    decreases a, 1
  {
    ContentDistinct(a, b, path);
    SharedWellKeyed(a, b, path);
    FreshIsOfSource(a, b);
  }

  lemma {:induction false} FreshIsOfSource(dst: seq<Pair>, src: seq<Pair>)
    ensures forall p | p in Fresh(dst, src) :: p in src
  {
    if src != [] {
      FreshIsOfSource(dst, src[..|src| - 1]);
    }
  }

  lemma {:induction false} SharedWellKeyed(a: seq<Pair>, b: seq<Pair>, path: string)
    requires AllWellKeyed(a) && AllWellKeyed(b) && MergeShared(a, b, path).Some?
    ensures forall p | p in MergeShared(a, b, path).value :: WellKeyed(p.value)
    decreases a, 0
  {
    if a != [] {
      var init, last := a[..|a| - 1], a[|a| - 1];
      assert a == init + [last];
      DistinctSplit(init, last);
      SharedSnoc(init, last, b, path);
      SharedWellKeyed(init, b, path);
      var other := Find(b, last.key);
      if other.Some? {
        assert Pair(last.key, other.value) in b;
        var p := JoinPath(path, last.key);
        if p in IDENTITY_MAPS {
          IdentityWellKeyed(last.value, other.value);
        } else {
          MergeWellKeyed(last.value, other.value, p);
        }
      }
    }
  }

  lemma IdentityWellKeyed(x: Node, y: Node)
    requires WellKeyed(x) && WellKeyed(y) && MergeIdentity(x, y).Some?
    ensures WellKeyed(MergeIdentity(x, y).value)
  {
    KeysAppend(x.content, y.content);
    var xs, ys := Keys(x.content), Keys(y.content);
    forall i, j | 0 <= i < j < |xs + ys|
      ensures (xs + ys)[i] != (xs + ys)[j]
    {
      if i < |xs| <= j {
        assert xs[i] in xs && ys[j - |xs|] in ys;
      }
    }
  }

  // ---- Null, and things named twice ----

  /** A null yields to the other side, except where keys name unique entities: there it makes the
      merge fail, whatever the other side is. */
  lemma NullYieldsExactlyElsewhere(n: Node, v: Node, childPath: string)
    requires IsNull(n)
    ensures MergeKey(n, v, childPath) == Some(v) <==> childPath !in IDENTITY_MAPS
    ensures MergeKey(v, n, childPath) == Some(if IsNull(v) then n else v) <==> childPath !in IDENTITY_MAPS
    ensures childPath in IDENTITY_MAPS ==> MergeKey(n, v, childPath).None? && MergeKey(v, n, childPath).None?
  {
  }

  /** Two files that both have a section of unique entities, empty in one of them (`models:` with
      nothing under it): the merge fails, in either order, whatever else they hold. */
  lemma EmptySectionFails(a: seq<Pair>, b: seq<Pair>, path: string, section: string, n: Node)
    requires Distinct(a) && Distinct(b) && JoinPath(path, section) in IDENTITY_MAPS
    requires At(a, section) == Present(n) && IsNull(n) && section in Keys(b)
    ensures MergeContent(a, b, path).None? && MergeContent(b, a, path).None?
  {
    FailedKeyFails(a, b, path, section);
    FailedKeyFails(b, a, path, section);
  }

  lemma FailedKeyFails(dst: seq<Pair>, src: seq<Pair>, path: string, key: string)
    requires Distinct(dst) && Join(At(dst, key), At(src, key), JoinPath(path, key)) == Failed
    ensures MergeContent(dst, src, path).None?
  {
    ContentHolds(dst, src, path);
  }

  /** What merging itself says is null: exactly the null nodes give way to everything, on either
      side. */
  lemma NullIsWhatYields(n: Node, path: string)
    ensures (forall v :: Merge(n, v, path) == Some(v)) <==> IsNull(n)
    ensures (forall v :: !IsNull(v) ==> Merge(v, n, path) == Some(v)) <==> IsNull(n)
  {
    if IsNull(n) {
      forall v
        ensures Merge(n, v, path) == Some(v)
        ensures !IsNull(v) ==> Merge(v, n, path) == Some(v)
      {
      }
    } else {
      var v := Resists(n, path);
    }
  }

  /** Some other value that a node other than null does not merge with. */
  lemma Resists(n: Node, path: string) returns (v: Node)
    requires !IsNull(n)
    ensures !IsNull(v) && Merge(n, v, path).None? && Merge(v, n, path).None?
  {
    v := if n.Sequence? then Mapping([]) else Sequence([]);
  }

  /** A `!!null` scalar gives way exactly when its text is empty; spelled out, as `null`, `~` or
      `Null`, it does not. */
  lemma SpelledNullConflicts(text: string, path: string)
    ensures (forall v :: Merge(Scalar("!!null", text), v, path) == Some(v)) <==> text == ""
    ensures (forall v :: !IsNull(v) ==> Merge(v, Scalar("!!null", text), path) == Some(v)) <==> text == ""
  {
    NullIsWhatYields(Scalar("!!null", text), path);
  }

  /** Any other scalar, spelled nulls included, merges with nulls and with its equal only, and
      stays what it is; mappings, sequences and scalars that differ make the merge fail. */
  lemma ScalarMeets(n: Node, v: Node, path: string)
    requires n.Scalar? && !IsNull(n)
    ensures Merge(n, v, path) == if IsNull(v) || v == n then Some(n) else None
    ensures Merge(v, n, path) == if IsNull(v) || v == n then Some(n) else None
  {
    match v
    case Scalar(tag, text) => assert v == n <==> text == n.text && tag == n.tag;
    case _ =>
  }

  /** One entity in both sides of a map of unique entities makes the whole merge fail. */
  lemma SameEntityTwiceFails(a: seq<Pair>, b: seq<Pair>, path: string, section: string, x: seq<Pair>, y: seq<Pair>, entity: string)
    requires Distinct(a) && JoinPath(path, section) in IDENTITY_MAPS
    requires At(a, section) == Present(Mapping(x)) && At(b, section) == Present(Mapping(y))
    requires entity in Keys(x) && entity in Keys(y)
    ensures MergeContent(a, b, path).None?
  {
    ContentHolds(a, b, path);
    assert Join(At(a, section), At(b, section), JoinPath(path, section)) == Failed;
  }

  // ---- Any number of sources ----

  /** What merging sources so far gave. */
  datatype Merged = NoSource | Tree(content: seq<Pair>) | Conflict

  function Together(x: Merged, y: Merged): Merged {
    if x.Conflict? || y.Conflict? then Conflict
    else if x.NoSource? then y
    else if y.NoSource? then x
    else
      var r := MergeContent(x.content, y.content, "");
      if r.None? then Conflict else Tree(r.value)
  }

  /** The sources in order; an empty file has no tree. */
  function MergeSources(sources: seq<Option<seq<Pair>>>): Merged {
    if sources == [] then NoSource
    else Together(MergeSources(sources[..|sources| - 1]), Single(sources[|sources| - 1]))
  }

  function Single(source: Option<seq<Pair>>): Merged {
    if source.Some? then Tree(source.value) else NoSource
  }

  ghost predicate Sound(x: Merged) {
    x.Tree? ==> AllWellKeyed(x.content)
  }

  lemma TogetherSound(x: Merged, y: Merged)
    requires Sound(x) && Sound(y)
    ensures Sound(Together(x, y))
  {
    if x.Tree? && y.Tree? && Together(x, y).Tree? {
      ContentWellKeyed(x.content, y.content, "");
    }
  }

  lemma TogetherAssociative(x: Merged, y: Merged, z: Merged)
    requires Sound(x) && Sound(y) && Sound(z)
    ensures Together(Together(x, y), z) == Together(x, Together(y, z))
  {
    if x.Tree? && y.Tree? && z.Tree? {
      MergeAssociative(Mapping(x.content), Mapping(y.content), Mapping(z.content), "");
    }
  }

  ghost predicate SourcesSound(sources: seq<Option<seq<Pair>>>) {
    forall s | s in sources :: s.Some? ==> AllWellKeyed(s.value)
  }

  lemma {:induction false} SourcesGiveSound(sources: seq<Option<seq<Pair>>>)
    requires SourcesSound(sources)
    ensures Sound(MergeSources(sources))
  {
    if sources != [] {
      SourcesGiveSound(sources[..|sources| - 1]);
      TogetherSound(MergeSources(sources[..|sources| - 1]), Single(sources[|sources| - 1]));
    }
  }

  /** However a list of sources is cut in two, merging the parts first and then their results
      gives what merging one by one gives, failures included. */
  lemma {:induction false} SourcesCutAnywhere(first: seq<Option<seq<Pair>>>, second: seq<Option<seq<Pair>>>)
    requires SourcesSound(first) && SourcesSound(second)
    ensures MergeSources(first + second) == Together(MergeSources(first), MergeSources(second))
    decreases |second|
  {
    if second == [] {
      assert first + second == first;
    } else {
      var init, last := second[..|second| - 1], second[|second| - 1];
      assert (first + second)[..|first + second| - 1] == first + init;
      SourcesCutAnywhere(first, init);
      SourcesGiveSound(first);
      SourcesGiveSound(init);
      TogetherAssociative(MergeSources(first), MergeSources(init), Single(last));
    }
  }

  // ---- The merge as the program does it ----

  method IndexMapping(content: seq<Pair>) returns (idx: map<string, Node>)
    ensures forall k :: (k in idx <==> Find(content, k).Some?) && (k in idx ==> Find(content, k) == Some(idx[k]))
  {
    idx := map[];
    for i := 0 to |content|
      invariant forall k :: (k in idx <==> Find(content[..i], k).Some?) && (k in idx ==> Find(content[..i], k) == Some(idx[k]))
    {
      assert content[..i + 1][..i] == content[..i];
      idx := idx[content[i].key := content[i].value];
    }
    assert content[..|content|] == content;
  }

  lemma {:induction false} SharedPrefix(dst: seq<Pair>, src: seq<Pair>, path: string, i: nat)
    requires i <= |dst| && MergeShared(dst[..i], src, path).None?
    ensures MergeShared(dst, src, path).None?
  {
    if i < |dst| {
      assert dst[..|dst| - 1][..i] == dst[..i];
      SharedPrefix(dst[..|dst| - 1], src, path, i);
    } else {
      assert dst[..i] == dst;
    }
  }

  /** dst is changed pair by pair, then grows by the pairs that only src has. */
  method MergeNodes(dst: seq<Pair>, src: seq<Pair>, path: string) returns (r: Option<seq<Pair>>)
    ensures r == MergeContent(dst, src, path)
    decreases dst, 1
  {
    var content := dst;
    var srcIdx := IndexMapping(src);
    for i := 0 to |dst|
      invariant FirstPass(dst, src, path, i, content)
    {
      var v := PassPair(content[i], src, srcIdx, path);
      FirstPassStep(dst, src, path, i, content, v);
      if v.Failed? {
        return None;
      }
      content := content[i := Pair(content[i].key, v.node)];
    }
    assert dst[..|dst|] == dst && content[..|dst|] == content;
    content := AppendFresh(dst, src, content);
    r := Some(content);
  }

  /** The first i pairs were merged, the others are as they were. */
  ghost predicate FirstPass(dst: seq<Pair>, src: seq<Pair>, path: string, i: nat, content: seq<Pair>) {
    && i <= |dst| == |content|
    && content[i..] == dst[i..]
    && MergeShared(dst[..i], src, path) == Some(content[..i])
  }

  lemma FirstPassStep(dst: seq<Pair>, src: seq<Pair>, path: string, i: nat, content: seq<Pair>, v: Slot)
    requires FirstPass(dst, src, path, i, content) && i < |dst| && v == Passed(content[i], src, path) && !v.Absent?
    ensures v.Failed? ==> MergeShared(dst, src, path).None?
    ensures v.Present? ==> FirstPass(dst, src, path, i + 1, content[i := Pair(content[i].key, v.node)])
  {
    FirstOfBoth(content, dst, i);
    SharedSnoc(dst[..i], dst[i], src, path);
    if v.Failed? {
      SharedPrefix(dst, src, path, i + 1);
    } else {
      var next := content[i := Pair(content[i].key, v.node)];
      assert next[..i + 1] == content[..i] + [next[i]];
      RestOfBoth(content, dst, next, i);
    }
  }

  lemma FirstOfBoth(content: seq<Pair>, dst: seq<Pair>, i: nat)
    requires i < |content| == |dst| && content[i..] == dst[i..]
    ensures content[i] == dst[i] && dst[..i + 1] == dst[..i] + [dst[i]]
  {
    assert content[i..][0] == dst[i..][0];
  }

  lemma RestOfBoth(content: seq<Pair>, dst: seq<Pair>, next: seq<Pair>, i: nat)
    requires i < |content| == |dst| == |next| && content[i..] == dst[i..]
    requires forall j | i < j < |next| :: next[j] == content[j]
    ensures next[i + 1..] == dst[i + 1..]
  {
    assert content[i..][1..] == content[i + 1..] && dst[i..][1..] == dst[i + 1..];
  }

  /** What becomes of one pair of dst. */
  method PassPair(pair: Pair, src: seq<Pair>, srcIdx: map<string, Node>, path: string) returns (v: Slot)
    requires forall k :: (k in srcIdx <==> Find(src, k).Some?) && (k in srcIdx ==> Find(src, k) == Some(srcIdx[k]))
    ensures v == Passed(pair, src, path) && !v.Absent?
    decreases pair, 0
  {
    if pair.key !in srcIdx {
      return Present(pair.value);
    }
    var merged := MergeChild(pair.value, srcIdx[pair.key], JoinPath(path, pair.key));
    v := if merged.Some? then Present(merged.value) else Failed;
  }

  method MergeChild(dst: Node, src: Node, childPath: string) returns (r: Option<Node>)
    ensures r == MergeKey(dst, src, childPath)
    decreases dst, 1
  {
    if childPath in IDENTITY_MAPS {
      r := MergeIdentityMap(dst, src);
    } else {
      r := MergeValue(dst, src, childPath);
    }
  }

  method AppendFresh(dst: seq<Pair>, src: seq<Pair>, shared: seq<Pair>) returns (content: seq<Pair>)
    ensures content == shared + Fresh(dst, src)
  {
    content := shared;
    var dstIdx := IndexMapping(dst);
    for i := 0 to |src|
      invariant content == shared + Fresh(dst, src[..i])
    {
      assert src[..i + 1][..i] == src[..i];
      if src[i].key !in dstIdx {
        content := content + [src[i]];
      }
    }
    assert src[..|src|] == src;
  }

  method MergeIdentityMap(dst: Node, src: Node) returns (r: Option<Node>)
    ensures r == MergeIdentity(dst, src)
  {
    if !dst.Mapping? || !src.Mapping? {
      return None;
    }
    var dstIdx := IndexMapping(dst.content);
    var content := dst.content;
    for i := 0 to |src.content|
      invariant content == dst.content + src.content[..i]
      invariant forall j | 0 <= j < i :: src.content[j].key !in Keys(dst.content)
    {
      var pair := src.content[i];
      if pair.key in dstIdx {
        assert Keys(src.content)[i] == pair.key;
        return None;
      }
      content := content + [pair];
    }
    assert forall j :: 0 <= j < |src.content| ==> Keys(src.content)[j] == src.content[j].key;
    assert src.content[..|src.content|] == src.content;
    r := Some(Mapping(content));
  }

  method MergeValue(dst: Node, src: Node, path: string) returns (r: Option<Node>)
    ensures r == Merge(dst, src, path)
    decreases dst, 0
  {
    if dst.Mapping? && src.Mapping? {
      var content := MergeNodes(dst.content, src.content, path);
      return if content.None? then None else Some(Mapping(content.value));
    }
    if dst.Sequence? && src.Sequence? {
      return Some(Sequence(dst.items + src.items));
    }
    if dst.Scalar? && src.Scalar? {
      if IsNullScalar(dst) {
        return Some(src);
      }
      if IsNullScalar(src) || (dst.text == src.text && dst.tag == src.tag) {
        return Some(dst);
      }
      return None;
    }
    if IsNull(dst) {
      return Some(src);
    }
    if IsNull(src) {
      return Some(dst);
    }
    return None;
  }

  /** The sources one after another, each merged into what came before. */
  method LoadSources(sources: seq<Option<seq<Pair>>>) returns (merged: Merged)
    ensures merged == MergeSources(sources)
  {
    merged := NoSource;
    for i := 0 to |sources|
      invariant merged == MergeSources(sources[..i]) && !merged.Conflict?
    {
      assert sources[..i + 1][..i] == sources[..i];
      var node := sources[i];
      if node.Some? {
        if merged.NoSource? {
          merged := Tree(node.value);
        } else {
          var r := MergeNodes(merged.content, node.value, "");
          if r.None? {
            ConflictStays(sources, i + 1);
            return Conflict;
          }
          merged := Tree(r.value);
        }
      }
    }
    assert sources[..|sources|] == sources;
  }

  lemma {:induction false} ConflictStays(sources: seq<Option<seq<Pair>>>, i: nat)
    requires i <= |sources| && MergeSources(sources[..i]).Conflict?
    ensures MergeSources(sources).Conflict?
  {
    if i < |sources| {
      assert sources[..|sources| - 1][..i] == sources[..i];
      ConflictStays(sources[..|sources| - 1], i);
    } else {
      assert sources[..i] == sources;
    }
  }
}
