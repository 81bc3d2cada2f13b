/** The log's ring of bytes (internal/logmon/logging.go). */
module LogRing {
  /** The position t places behind the head. */
  function Behind(head: nat, t: nat, cap: nat): (i: nat)
    requires head < cap && 1 <= t <= cap
    ensures i < cap
  {
    if t <= head then head - t else head + cap - t
  }

  lemma ModBelowTwice(x: nat, cap: nat)
    requires cap > 0 && x < 2 * cap
    ensures x % cap == if x < cap then x else x - cap
  {
    var q := x / cap;
    assert x == q * cap + x % cap;
    if q >= 2 {
      AtLeast(q - 1, cap);
    }
  }

  lemma AtLeast(k: int, c: nat)
    requires k >= 1
    ensures k * c >= c
  {
    assert k * c == c + (k - 1) * c;
  }

  function Min(a: nat, b: nat): nat {
    if a < b then a else b
  }

  /** The last n elements. */
  function Last<T>(xs: seq<T>, n: nat): seq<T>
    requires n <= |xs|
  {
    xs[|xs| - n..]
  }

  /** Writes bytes into an array from a position on; they fit. */
  method Copy(a: array<bv8>, at: nat, p: seq<bv8>)
    requires at + |p| <= a.Length
    modifies a
    ensures forall i | 0 <= i < a.Length ::
      a[i] == if at <= i < at + |p| then p[i - at] else old(a[i])
  {
    for k := 0 to |p|
      invariant forall i | 0 <= i < a.Length ::
        a[i] == if at <= i < at + k then p[i - at] else old(a[i])
    {
      a[at + k] := p[k];
    }
  }

  /** The ring holds this many of the last bytes written, the latest one behind the head. */
  ghost predicate Shows(ring: seq<bv8>, head: nat, size: nat, written: seq<bv8>)
    requires size <= |ring| && size <= |written| && (head < |ring| || ring == [])
  {
    forall t | 1 <= t <= size :: ring[Behind(head, t, |ring|)] == written[|written| - t]
  }

  function Advanced(head: nat, n: nat, cap: nat): nat {
    if head + n < cap then head + n else head + n - cap
  }

  /** The ring after fewer bytes than it holds were written from the head on, around the end if
      need be. */
  ghost predicate WrittenInto(was: seq<bv8>, now: seq<bv8>, head: nat, p: seq<bv8>) {
    && |now| == |was| && head < |was| && |p| < |was|
    && forall i | 0 <= i < |was| ::
         now[i] == (if head <= i < head + |p| then p[i - head]
                    else if i + |was| < head + |p| then p[i + |was| - head]
                    else was[i])
  }

  lemma WritingShows(was: seq<bv8>, now: seq<bv8>, head: nat, size: nat, written: seq<bv8>, p: seq<bv8>)
    requires WrittenInto(was, now, head, p) && size <= |was| && size <= |written|
    requires Shows(was, head, size, written)
    ensures Advanced(head, |p|, |was|) < |was|
    ensures Shows(now, Advanced(head, |p|, |was|), Min(size + |p|, |was|), written + p)
  {
    var cap, after := |was|, Advanced(head, |p|, |was|);
    forall t | 1 <= t <= Min(size + |p|, cap)
      ensures now[Behind(after, t, cap)] == (written + p)[|written + p| - t]
    {
      if t <= |p| {
        assert (written + p)[|written + p| - t] == p[|p| - t];
      } else {
        var u := t - |p|;
        assert Behind(after, t, cap) == Behind(head, u, cap);
        assert was[Behind(head, u, cap)] == written[|written| - u];
      }
    }
  }

  class CircularBuffer {
    const data: array<bv8>
    var head: nat
    var size: nat

    /** Everything written so far. */
    ghost var written: seq<bv8>

    ghost predicate Valid()
      reads this, data
    {
      && size == Min(|written|, data.Length)
      && (head < data.Length || (head == 0 && data.Length == 0))
      && Shows(data[..], head, size, written)
    }

    constructor (capacity: nat)
      ensures Valid() && fresh(data) && data.Length == capacity && written == []
    {
      data := new bv8[capacity];
      head, size, written := 0, 0, [];
    }

    method Write(p: seq<bv8>)
      requires Valid()
      modifies this, data
      ensures Valid() && written == old(written) + p
    {
      if |p| == 0 {
        assert written + p == written;
        return;
      }
      var cap := data.Length;
      if |p| >= cap {
        Copy(data, 0, p[|p| - cap..]);
        head := 0;
        size := cap;
        written := written + p;
        assert data[..] == p[|p| - cap..];
        return;
      }
      ghost var was := data[..];
      WritingFits(p);
      WritingShows(was, data[..], head, size, written, p);
      ModBelowTwice(head + |p|, cap);
      head := (head + |p|) % cap;
      size := size + |p|;
      if size > cap {
        size := cap;
      }
      written := written + p;
    }

    /** Fewer bytes than there is room for: in one piece, or around the end. */
    method WritingFits(p: seq<bv8>)
      requires 0 < |p| < data.Length && head < data.Length
      modifies data
      ensures WrittenInto(old(data[..]), data[..], head, p)
    {
      var firstPart := data.Length - head;
      if firstPart >= |p| {
        Copy(data, head, p);
      } else {
        Copy(data, head, p[..firstPart]);
        Copy(data, 0, p[firstPart..]);
      }
    }

    /** The last bytes written, as many as the ring holds. */
    method GetHistory() returns (result: seq<bv8>)
      requires Valid()
      ensures result == Last(written, Min(|written|, data.Length))
    {
      if size == 0 {
        return [];
      }
      var cap := data.Length;
      ModBelowTwice(head + cap - size, cap);
      var start := (head + cap - size) % cap;
      if start + size <= cap {
        result := data[start..start + size];
      } else {
        var firstPart := cap - start;
        result := data[start..] + data[..size - firstPart];
      }
      ReadsBack(data[..], head, size, start, written, result);
    }
  }

  lemma ReadsBack(ring: seq<bv8>, head: nat, size: nat, start: nat, written: seq<bv8>, result: seq<bv8>)
    requires 0 < size <= |ring| && size <= |written| && head < |ring| && Shows(ring, head, size, written)
    requires start == Behind(head, size, |ring|)
    requires |result| == size
    requires forall i | 0 <= i < size :: result[i] == ring[if start + i < |ring| then start + i else start + i - |ring|]
    ensures result == Last(written, size)
  {
    forall i | 0 <= i < size
      ensures result[i] == written[|written| - size + i]
    {
      assert ring[Behind(head, size - i, |ring|)] == written[|written| - (size - i)];
    }
  }
}
