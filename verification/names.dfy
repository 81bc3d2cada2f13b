/** Model identifiers and set names are strings. This module fixes the lexicographic order that
    the router sorts them by, and shows that a sorted, duplicate-free list is determined by the
    set of its elements. That fact makes a sorted list of models a function of a set of models,
    whatever order a map iteration delivered them in. */
module Names {

  datatype Option<+T> = None | Some(value: T)

  datatype Result<+T, +E> = Ok(value: T) | Err(error: E)

  /** The elements of a list. */
  function Elems<T>(xs: seq<T>): set<T> {
    set x | x in xs
  }

  lemma ElemsAppend<T>(xs: seq<T>, ys: seq<T>)
    ensures Elems(xs + ys) == Elems(xs) + Elems(ys)
  {
  }

  ghost predicate NoDup<T>(xs: seq<T>) {
    forall i, j :: 0 <= i < j < |xs| ==> xs[i] != xs[j]
  }

  /** Lexicographic order on strings. */
  predicate Le(a: string, b: string) {
    a == "" || (b != "" && (a[0] < b[0] || (a[0] == b[0] && Le(a[1..], b[1..]))))
  }

  /** The strings agree up to here, where the first is smaller. */
  ghost predicate SmallerAt(a: string, b: string, i: nat) {
    i < |a| && i < |b| && a[..i] == b[..i] && a[i] < b[i]
  }

  /** One string comes before another exactly if it is a first part of it, or smaller at the first
      place where they differ. */
  lemma {:induction false} LeExactly(a: string, b: string)
    ensures Le(a, b) <==> a <= b || exists i: nat :: SmallerAt(a, b, i)
  {
    if a != "" && b != "" && a[0] == b[0] {
      LeExactly(a[1..], b[1..]);
      assert a == [a[0]] + a[1..] && b == [b[0]] + b[1..];
      if i: nat :| SmallerAt(a[1..], b[1..], i) {
        assert a[..i + 1] == [a[0]] + a[1..][..i] && b[..i + 1] == [b[0]] + b[1..][..i];
        assert SmallerAt(a, b, i + 1);
      }
      if i: nat :| SmallerAt(a, b, i) {
        assert i > 0;
        assert a[1..][..i - 1] == a[..i][1..] && b[1..][..i - 1] == b[..i][1..];
        assert SmallerAt(a[1..], b[1..], i - 1);
      }
    } else if a != "" && b != "" && a[0] < b[0] {
      assert SmallerAt(a, b, 0);
    } else if a != "" && b != "" {
      forall i: nat | 0 < i <= |a| && i <= |b|
        ensures a[..i] != b[..i]
      {
        assert a[..i][0] == a[0] && b[..i][0] == b[0];
      }
    }
  }

  lemma {:induction false} LeTotal(a: string, b: string)
    ensures Le(a, b) || Le(b, a)
  {
    if a != "" && b != "" && a[0] == b[0] {
      LeTotal(a[1..], b[1..]);
    }
  }

  lemma {:induction false} LeAntisymmetric(a: string, b: string)
    requires Le(a, b) && Le(b, a)
    ensures a == b
  {
    if a != "" {
      LeAntisymmetric(a[1..], b[1..]);
      assert a == [a[0]] + a[1..] && b == [b[0]] + b[1..];
    }
  }

  lemma {:induction false} LeTransitive(a: string, b: string, c: string)
    requires Le(a, b) && Le(b, c)
    ensures Le(a, c)
  {
    if a != "" && a[0] == b[0] && b[0] == c[0] {
      LeTransitive(a[1..], b[1..], c[1..]);
    }
  }

  ghost predicate Sorted(xs: seq<string>) {
    forall i, j :: 0 <= i < j < |xs| ==> Le(xs[i], xs[j])
  }

  /** The place before which x goes in a sorted list. */
  function Place(x: string, xs: seq<string>): (k: nat)
    ensures k <= |xs|
    ensures forall i :: 0 <= i < k ==> !Le(x, xs[i])
    ensures k < |xs| ==> Le(x, xs[k])
  {
    if xs == [] || Le(x, xs[0]) then 0 else 1 + Place(x, xs[1..])
  }

  function Insert(x: string, xs: seq<string>): seq<string> {
    xs[..Place(x, xs)] + [x] + xs[Place(x, xs)..]
  }

  lemma InsertSorts(x: string, xs: seq<string>)
    requires Sorted(xs)
    ensures Sorted(Insert(x, xs))
    ensures multiset(Insert(x, xs)) == multiset(xs) + multiset{x}
  {
    var k := Place(x, xs);
    assert xs == xs[..k] + xs[k..];
    forall i | 0 <= i < k
      ensures Le(xs[i], x)
    {
      LeTotal(xs[i], x);
    }
    forall i | k <= i < |xs|
      ensures Le(x, xs[i])
    {
      if i > k {
        LeTransitive(x, xs[k], xs[i]);
      }
    }
    BetweenSorts(x, xs, k);
  }

  lemma BetweenSorts(x: string, xs: seq<string>, k: nat)
    requires Sorted(xs) && k <= |xs|
    requires forall i | 0 <= i < k :: Le(xs[i], x)
    requires forall i | k <= i < |xs| :: Le(x, xs[i])
    ensures Sorted(xs[..k] + [x] + xs[k..])
  {
  }

  /** sort.Strings, as a function: the list in non-decreasing order. */
  function Sort(xs: seq<string>): seq<string> {
    if xs == [] then [] else Insert(xs[0], Sort(xs[1..]))
  }

  lemma {:induction false} SortSorts(xs: seq<string>)
    ensures Sorted(Sort(xs))
    ensures multiset(Sort(xs)) == multiset(xs)
  {
    if xs != [] {
      SortSorts(xs[1..]);
      InsertSorts(xs[0], Sort(xs[1..]));
      assert xs == [xs[0]] + xs[1..];
    }
  }

  ghost predicate Lists(xs: seq<string>, s: set<string>) {
    Sorted(xs) && NoDup(xs) && Elems(xs) == s
  }

  /** A sorted duplicate-free list is determined by its elements. */
  lemma {:induction false} ListsUnique(xs: seq<string>, ys: seq<string>, s: set<string>)
    requires Lists(xs, s) && Lists(ys, s)
    ensures xs == ys
    decreases |xs|
  {
    assert (xs == [] <==> s == {}) by {
      assert xs != [] ==> xs[0] in Elems(xs);
    }
    assert (ys == [] <==> s == {}) by {
      assert ys != [] ==> ys[0] in Elems(ys);
    }
    if s != {} {
      assert xs[0] in Elems(ys) && ys[0] in Elems(xs);
      var i :| 0 <= i < |ys| && ys[i] == xs[0];
      var j :| 0 <= j < |xs| && xs[j] == ys[0];
      LeReflexive(xs[0]);
      LeReflexive(ys[0]);
      LeAntisymmetric(xs[0], ys[0]);
      TailLists(xs, s);
      TailLists(ys, s);
      ListsUnique(xs[1..], ys[1..], s - {xs[0]});
      assert xs == [xs[0]] + xs[1..] && ys == [ys[0]] + ys[1..];
    }
  }

  lemma {:induction false} LeReflexive(a: string)
    ensures Le(a, a)
  {
    if a != "" {
      LeReflexive(a[1..]);
    }
  }

  lemma TailLists(xs: seq<string>, s: set<string>)
    requires Lists(xs, s) && xs != []
    ensures Lists(xs[1..], s - {xs[0]})
  {
    var t := xs[1..];
    forall x
      ensures x in Elems(t) <==> x in s - {xs[0]}
    {
      if x in s - {xs[0]} {
        var i :| 0 <= i < |xs| && xs[i] == x;
        assert t[i - 1] == x;
      }
      if x in Elems(t) {
        var i :| 0 <= i < |t| && t[i] == x;
        assert xs[i + 1] == x;
      }
    }
  }

  lemma NoDupCount(xs: seq<string>)
    ensures NoDup(xs) <==> forall x :: multiset(xs)[x] <= 1
  {
    if xs != [] {
      var t := xs[1..];
      NoDupCount(t);
      assert xs == [xs[0]] + t;
      assert multiset(xs) == multiset{xs[0]} + multiset(t);
      if NoDup(xs) {
        assert NoDup(t) by {
          forall i, j | 0 <= i < j < |t| ensures t[i] != t[j] {
            assert xs[i + 1] == t[i] && xs[j + 1] == t[j];
          }
        }
        assert xs[0] !in t by {
          assert forall i :: 0 <= i < |t| ==> t[i] == xs[i + 1];
        }
      } else {
        var i, j :| 0 <= i < j < |xs| && xs[i] == xs[j];
        if i == 0 {
          assert t[j - 1] == xs[0];
          assert xs[0] in t && multiset(t)[xs[0]] >= 1;
          assert multiset(xs)[xs[0]] > 1;
        } else {
          assert t[i - 1] == t[j - 1];
          var x :| multiset(t)[x] > 1;
          assert multiset(xs)[x] > 1;
        }
      }
    }
  }

  /** Sorting a duplicate-free list gives the list of its element set. */
  lemma SortLists(xs: seq<string>)
    requires NoDup(xs)
    ensures Lists(Sort(xs), Elems(xs))
  {
    SortSorts(xs);
    NoDupCount(xs);
    NoDupCount(Sort(xs));
    assert forall x :: x in xs <==> x in multiset(xs);
    assert forall x :: x in Sort(xs) <==> x in multiset(Sort(xs));
  }

  lemma {:induction false} SomeListing(s: set<string>) returns (xs: seq<string>)
    ensures NoDup(xs) && Elems(xs) == s
    decreases |s|
  {
    if s == {} {
      xs := [];
    } else {
      var x :| x in s;
      var t := SomeListing(s - {x});
      xs := [x] + t;
      assert x !in Elems(t);
      ElemsAppend([x], t);
    }
  }

  /** Every finite set has a sorted duplicate-free listing. */
  lemma ListingExists(s: set<string>)
    ensures exists xs :: Lists(xs, s)
  {
    var ys := SomeListing(s);
    SortLists(ys);
  }

  /** The sorted listing of a set. */
  ghost function Listing(s: set<string>): (xs: seq<string>)
    ensures Lists(xs, s)
  {
    ListingExists(s);
    var xs :| Lists(xs, s);
    xs
  }
}
