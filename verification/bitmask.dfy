/** The query-local bit masks of internal/matrix/program.go: a slice of 64-bit words. A word is
    written as the set of the positions of its one bits, so `|=` adds a position, `|` is union
    and `x &^ y != 0` says that x has a position that y lacks. Which word and which position a bit
    goes to is computed as in the source. */
module BitMasks {

  const WORD_BITS := 64

  type Word = w: set<nat> | forall b :: b in w ==> b < WORD_BITS

  type BitMask = seq<Word>

  /** The bits that are set in a mask. */
  ghost function Bits(m: BitMask): (s: set<nat>)
    ensures forall b: nat :: b in s <==> b / WORD_BITS < |m| && b % WORD_BITS in m[b / WORD_BITS]
  {
    var s := set i: nat, k: nat | i < |m| && k in m[i] :: Bit(i, k);
    assert forall b: nat | b / WORD_BITS < |m| && b % WORD_BITS in m[b / WORD_BITS] ::
        b == Bit(b / WORD_BITS, b % WORD_BITS);
    s
  }

  ghost function Bit(i: nat, k: nat): (r: nat)
    ensures k < WORD_BITS ==> r / WORD_BITS == i && r % WORD_BITS == k
  {
    i * WORD_BITS + k
  }

  /** How many words n bits take. */
  function WordsFor(n: nat): (w: nat)
    ensures forall b: nat :: b < n ==> b / WORD_BITS < w
    ensures n > 0 ==> exists b: nat :: b < n && b / WORD_BITS == w - 1
  {
    assert n > 0 ==> (n - 1) / WORD_BITS == (n + WORD_BITS - 1) / WORD_BITS - 1;
    (n + WORD_BITS - 1) / WORD_BITS
  }

  predicate Has(m: BitMask, bit: nat)
    requires bit / WORD_BITS < |m|
  {
    bit % WORD_BITS in m[bit / WORD_BITS]
  }

  method EmptyMask(words: nat) returns (m: BitMask)
    ensures |m| == words && Bits(m) == {}
  {
    m := [];
    while |m| < words
      invariant |m| <= words
      invariant forall i :: 0 <= i < |m| ==> m[i] == {}
    {
      m := m + [{}];
    }
    assert forall b: nat :: b !in Bits(m);
  }

  /** mask[bit/64] |= 1 << (bit%64) */
  method SetBit(m: BitMask, bit: nat) returns (r: BitMask)
    requires bit / WORD_BITS < |m|
    ensures |r| == |m| && Bits(r) == Bits(m) + {bit}
  {
    r := m[bit / WORD_BITS := m[bit / WORD_BITS] + {bit % WORD_BITS}];
    forall b: nat
      ensures b in Bits(r) <==> b in Bits(m) + {bit}
    {
      if b / WORD_BITS == bit / WORD_BITS && b % WORD_BITS == bit % WORD_BITS {
        assert b == bit;
      }
    }
  }

  method SubsetOf(m: BitMask, other: BitMask) returns (r: bool)
    requires |m| == |other|
    ensures r <==> Bits(m) <= Bits(other)
  {
    var i := 0;
    while i < |m|
      invariant 0 <= i <= |m|
      invariant forall k :: 0 <= k < i ==> m[k] <= other[k]
    {
      if m[i] - other[i] != {} {
        var b :| b in m[i] - other[i];
        assert Bit(i, b) in Bits(m) && Bit(i, b) !in Bits(other);
        return false;
      }
      assert forall b :: b in m[i] ==> b !in m[i] - other[i];
      i := i + 1;
    }
    return true;
  }

  method UnionMask(left: BitMask, right: BitMask) returns (r: BitMask)
    requires |left| == |right|
    ensures |r| == |left| && Bits(r) == Bits(left) + Bits(right)
  {
    r := [];
    while |r| < |left|
      invariant |r| <= |left|
      invariant forall k :: 0 <= k < |r| ==> r[k] == left[k] + right[k]
    {
      r := r + [left[|r|] + right[|r|]];
    }
  }

  /** The mask of the bits 0, ..., n-1. */
  method FullMask(words: nat, n: nat) returns (m: BitMask)
    requires words == WordsFor(n)
    ensures |m| == words && forall b: nat :: b in Bits(m) <==> b < n
  {
    m := EmptyMask(words);
    var bit := 0;
    while bit < n
      invariant 0 <= bit <= n && |m| == words
      invariant forall b: nat :: b in Bits(m) <==> b < bit
    {
      m := SetBit(m, bit);
      bit := bit + 1;
    }
  }
}
