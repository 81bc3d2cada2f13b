/** The cache bounded by bytes (internal/cache/cache.go). */
module ByteCache {
  import opened Names

  type Items = map<int, seq<bv8>>

  predicate Listed(order: seq<int>, items: Items) {
    forall i | 0 <= i < |order| :: order[i] in items
  }

  function Total(order: seq<int>, items: Items): nat
    requires Listed(order, items)
  {
    if order == [] then 0 else |items[order[0]]| + Total(order[1..], items)
  }

  /** The list without this key. */
  function Without(order: seq<int>, id: int): (r: seq<int>)
    ensures forall k | k in r :: k in order
    ensures NoDup(order) ==> id !in r
  {
    if order == [] then [] else if order[0] == id then order[1..] else [order[0]] + Without(order[1..], id)
  }

  /** What stays when the oldest go first until the total is within the budget. */
  function Fitting(order: seq<int>, items: Items, budget: int): seq<int>
    requires Listed(order, items)
  {
    if order == [] || Total(order, items) <= budget then order else Fitting(order[1..], items, budget)
  }

  /** The shortest first part goes that has to. */
  lemma {:induction false} FittingDropsLeast(order: seq<int>, items: Items, budget: int) returns (n: nat)
    requires Listed(order, items)
    ensures n <= |order| && Fitting(order, items, budget) == order[n..]
    ensures n < |order| ==> Total(order[n..], items) <= budget
    ensures forall m | 0 <= m < n :: Total(order[m..], items) > budget
  {
    if order == [] || Total(order, items) <= budget {
      n := 0;
    } else {
      var rest := FittingDropsLeast(order[1..], items, budget);
      n := rest + 1;
      assert order[1..][rest..] == order[n..];
      forall m | 0 <= m < n
        ensures Total(order[m..], items) > budget
      {
        if m > 0 {
          assert order[1..][m - 1..] == order[m..];
        } else {
          assert order[0..] == order;
        }
      }
    }
  }

  lemma {:induction false} WithoutIs(order: seq<int>, id: int)
    requires NoDup(order)
    ensures NoDup(Without(order, id)) && forall k :: k in Without(order, id) <==> k in order && k != id
  {
    if order != [] {
      var rest := order[1..];
      assert order == [order[0]] + rest;
      assert forall i :: 0 <= i < |rest| ==> rest[i] == order[i + 1] && rest[i] != order[0];
      WithoutIs(rest, id);
      var r := Without(rest, id);
      assert forall i :: 0 <= i < |r| ==> r[i] in r && r[i] in rest;
    }
  }

  lemma {:induction false} TotalWithout(order: seq<int>, items: Items, id: int)
    requires NoDup(order) && Listed(order, items) && id in order
    ensures Listed(Without(order, id), items)
    ensures Total(order, items) == Total(Without(order, id), items) + |items[id]|
  {
    WithoutIs(order, id);
    if order[0] != id {
      var rest := order[1..];
      assert order == [order[0]] + rest;
      assert forall i :: 0 <= i < |rest| ==> rest[i] == order[i + 1];
      TotalWithout(rest, items, id);
      assert Without(order, id)[1..] == Without(rest, id);
    }
  }

  /** The total depends on the listed items only. */
  lemma {:induction false} TotalSame(order: seq<int>, items: Items, others: Items)
    requires Listed(order, items) && Listed(order, others) && forall i | 0 <= i < |order| :: items[order[i]] == others[order[i]]
    ensures Total(order, items) == Total(order, others)
  {
    if order != [] {
      assert order[0] in order;
      TotalSame(order[1..], items, others);
    }
  }

  lemma {:induction false} TotalSnoc(order: seq<int>, items: Items, id: int)
    requires Listed(order, items) && id in items
    ensures Total(order + [id], items) == Total(order, items) + |items[id]|
  {
    if order == [] {
      assert [] + [id] == [id];
      assert [id][1..] == [];
    } else {
      TotalSnoc(order[1..], items, id);
      assert (order + [id])[1..] == order[1..] + [id];
    }
  }

  /** The order and the items without the key are in step. */
  lemma ReadyToEvict(order: seq<int>, items: Items, id: int)
    requires NoDup(order) && Elems(order) == items.Keys && Listed(order, items)
    ensures var rest, was := Without(order, id), items - {id};
      && NoDup(rest) && id !in rest && Listed(rest, was) && Elems(rest) == was.Keys
      && Total(order, items) == Total(rest, was) + (if id in items then |items[id]| else 0)
      && (id !in items ==> rest == order)
  {
    var rest, was := Without(order, id), items - {id};
    WithoutIs(order, id);
    assert forall k :: k in order <==> k in Elems(order);
    assert forall k :: k in rest <==> k in Elems(rest);
    if id in items {
      TotalWithout(order, items, id);
    } else {
      WithoutAbsent(order, id);
    }
    TotalSame(rest, items, was);
  }

  ghost function Survivors(order: seq<int>, items: Items, id: int, budget: int): seq<int>
    requires NoDup(order) && Elems(order) == items.Keys && Listed(order, items)
  {
    ReadyToEvict(order, items, id);
    Fitting(Without(order, id), items - {id}, budget)
  }

  class Cache {
    var items: Items
    var order: seq<int>
    var size: int
    const maxSize: int

    /** Each key is listed once, the size is the sum of the bytes, and it is within the limit. */
    ghost predicate Valid()
      reads this
    {
      && NoDup(order) && Elems(order) == items.Keys
      && Listed(order, items)
      && size == Total(order, items)
      && (size <= maxSize || order == [])
    }

    constructor (maxBytes: int)
      ensures Valid() && items == map[] && maxSize == maxBytes
    {
      items, order, size, maxSize := map[], [], 0, maxBytes;
    }

    /** An item too large is refused and nothing changes. Otherwise the survivors are the old order
        without the key, less the shortest first part that has to go, and the key comes last. */
    method Add(id: int, data: seq<bv8>) returns (ok: bool)
      requires Valid()
      modifies this
      ensures Valid()
      ensures ok <==> |data| <= maxSize
      ensures !ok ==> items == old(items) && order == old(order)
      ensures ok ==> order == Survivors(old(order), old(items), id, maxSize - |data|) + [id]
      ensures ok ==> items.Keys == Elems(order) && items[id] == data
      ensures ok ==> forall k | k in items && k != id :: k in old(items) && items[k] == old(items)[k]
    {
      if |data| > maxSize {
        return false;
      }
      ReadyToEvict(order, items, id);
      ghost var rest := Without(order, id);
      ghost var was := items - {id};
      if id in items {
        size := size - |items[id]|;
        RemoveOrder(id);
      }
      Insert(id, data, rest, was);
      ok := true;
    }

    /** The key is not listed any more: room is made, and it comes last. */
    method Insert(id: int, data: seq<bv8>, ghost rest: seq<int>, ghost was: Items)
      requires order == rest && NoDup(rest) && id !in rest && |data| <= maxSize
      requires Listed(rest, was) && Elems(rest) == was.Keys
      requires was == items - {id} && size == Total(rest, was)
      modifies this`items, this`order, this`size
      ensures Valid() && order == Fitting(rest, was, maxSize - |data|) + [id]
      ensures id in items && items[id] == data
      ensures forall k | k in items && k != id :: k in was && items[k] == was[k]
    {
      Evict(id, |data|, rest, was);
      ghost var kept := order;
      assert forall k :: k in order <==> k in Elems(order);
      Store(id, data, was);
      assert order == kept + [id];
    }

    method RemoveOrder(id: int)
      modifies this`order
      ensures order == Without(old(order), id)
    {
      for i := 0 to |order|
        invariant order == old(order)
        invariant forall j | 0 <= j < i :: order[j] != id
      {
        if order[i] == id {
          WithoutAt(order, id, i);
          order := order[..i] + order[i + 1..];
          return;
        }
      }
      WithoutAbsent(order, id);
    }

    /** The oldest go first until there is room. The key being added is not among them. */
    method Evict(id: int, room: nat, ghost rest: seq<int>, ghost was: Items)
      requires order == rest && NoDup(rest) && id !in rest && room <= maxSize
      requires Listed(rest, was) && Elems(rest) == was.Keys
      requires was == items - {id} && size == Total(rest, was)
      modifies this`items, this`order, this`size
      ensures order == Fitting(rest, was, maxSize - room)
      ensures Listed(order, was)
      ensures size == Total(order, was) && size + room <= maxSize
      ensures items.Keys == Elems(order) + (old(items).Keys * {id})
      ensures forall k | k in items :: items[k] == old(items)[k]
      ensures NoDup(order) && id !in order
    {
      while size + room > maxSize && |order| > 0
        invariant NoDup(order) && id !in order && Listed(order, was)
        invariant size == Total(order, was)
        invariant Fitting(order, was, maxSize - room) == Fitting(rest, was, maxSize - room)
        invariant items.Keys == Elems(order) + (old(items).Keys * {id})
        invariant forall k | k in items :: k in old(items) && items[k] == old(items)[k]
        decreases |order|
      {
        var oldest := order[0];
        ghost var before := order;
        assert before == [oldest] + before[1..];
        order := order[1..];
        ElemsAppend([oldest], order);
        assert Elems([oldest]) == {oldest} && oldest in Elems(before);
        assert forall i :: 0 <= i < |order| ==> order[i] == before[i + 1] && order[i] != oldest;
        if oldest in items {
          size := size - |items[oldest]|;
          items := items - {oldest};
        } else {
          assert false;
        }
      }
    }

    method Store(id: int, data: seq<bv8>, ghost was: Items)
      requires NoDup(order) && id !in order && Listed(order, was) && Listed(order, items) && (forall i | 0 <= i < |order| :: items[order[i]] == was[order[i]])
      requires items.Keys - {id} == Elems(order)
      requires size == Total(order, was) && size + |data| <= maxSize
      modifies this`items, this`order, this`size
      ensures Valid() && order == old(order) + [id] && items == old(items)[id := data]
    {
      items := items[id := data];
      TotalSame(order, was, items);
      TotalSnoc(order, items, id);
      ElemsAppend(order, [id]);
      assert Elems([id]) == {id};
      order := order + [id];
      size := size + |data|;
    }

    method Get(id: int) returns (data: Option<seq<bv8>>)
      requires Valid()
      ensures data == if id in order then Some(items[id]) else None
    {
      assert id in order <==> id in Elems(order);
      data := if id in items then Some(items[id]) else None;
    }

    method Clear()
      requires Valid()
      modifies this
      ensures Valid() && items == map[] && order == [] && size == 0
    {
      items, order, size := map[], [], 0;
    }
  }

  lemma {:induction false} WithoutAbsent(order: seq<int>, id: int)
    requires id !in order
    ensures Without(order, id) == order
  {
    if order != [] {
      WithoutAbsent(order[1..], id);
    }
  }

  lemma {:induction false} WithoutAt(order: seq<int>, id: int, i: nat)
    requires i < |order| && order[i] == id && forall j | 0 <= j < i :: order[j] != id
    ensures Without(order, id) == order[..i] + order[i + 1..]
  {
    if i > 0 {
      WithoutAt(order[1..], id, i - 1);
      assert order[..i] + order[i + 1..] == [order[0]] + (order[1..][..i - 1] + order[1..][i..]);
    }
  }
}
