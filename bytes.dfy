/**
 * Bytes as the drivers see them: `uint8_t` is an 8-bit vector, and bit k of a
 * byte is the k-th bit counted from the least significant end (the order of the
 * `bit0` .. `bit7` fields of the `bitwise_t` overlay).
 */
module Bytes {

  type uint8 = bv8

  /** Bit k of d, counted from the least significant bit. */
  predicate Bit(d: uint8, k: nat)
    requires k < 8
  {
    (d >> k) & 1 == 1
  }

  /** Shifting a byte left by one moves bit k-1 to bit k. */
  lemma BitShl(x: uint8, k: nat)
    requires 1 <= k < 8
    ensures Bit(x << 1, k) == Bit(x, k - 1)
  {
  }

  /** Shifting a byte left by one moves every bit up by one place. */
  lemma BitsShl(x: uint8, y: uint8)
    requires y == x << 1
    ensures forall k :: 1 <= k < 8 ==> Bit(y, k) == Bit(x, k - 1)
  {
    forall k | 1 <= k < 8
      ensures Bit(y, k) == Bit(x, k - 1)
    {
      BitShl(x, k);
    }
  }

  /** Two bytes that agree on every bit are equal. */
  lemma BitExtensional(a: uint8, b: uint8)
    requires forall k :: 0 <= k < 8 ==> Bit(a, k) == Bit(b, k)
    ensures a == b
  {
    assert Bit(a, 0) == Bit(b, 0) && Bit(a, 1) == Bit(b, 1);
    assert Bit(a, 2) == Bit(b, 2) && Bit(a, 3) == Bit(b, 3);
    assert Bit(a, 4) == Bit(b, 4) && Bit(a, 5) == Bit(b, 5);
    assert Bit(a, 6) == Bit(b, 6) && Bit(a, 7) == Bit(b, 7);
  }

  /** Two bytes whose difference lies inside m agree outside m. */
  lemma MaskedDifference(a: uint8, b: uint8, m: uint8)
    requires (a ^ b) & m == a ^ b
    ensures a & !m == b & !m
  {
  }

  /** Two bytes that agree outside m agree under every mask disjoint from m. */
  lemma DisjointMasks(a: uint8, b: uint8, m: uint8, n: uint8)
    requires a & !m == b & !m && m & n == 0
    ensures a & n == b & n
  {
  }

  /** Two bytes that agree outside m agree on every bit m does not cover. */
  lemma BitOutsideMask(a: uint8, b: uint8, m: uint8, k: nat)
    requires k < 8 && a & !m == b & !m && !Bit(m, k)
    ensures Bit(a, k) == Bit(b, k)
  {
  }

  /** The bits of d, most significant first: the order a byte goes out on a serial line. */
  function Bits(d: uint8): (bs: seq<bool>)
    ensures |bs| == 8
    ensures forall i :: 0 <= i < 8 ==> bs[i] == Bit(d, 7 - i)
  {
    seq(8, i requires 0 <= i < 8 => Bit(d, 7 - i))
  }

  /** The byte whose bits, most significant first, are bs (a receiver shifting bits in). */
  function FromBits(bs: seq<bool>): uint8
    requires |bs| <= 8
  {
    if bs == [] then 0
    else (FromBits(bs[..|bs| - 1]) << 1) | (if bs[|bs| - 1] then 1 else 0)
  }

  lemma {:induction false} BitOfFromBits(bs: seq<bool>, k: nat)
    requires |bs| <= 8 && k < 8
    ensures Bit(FromBits(bs), k) == (k < |bs| && bs[|bs| - 1 - k])
  {
    if bs == [] {
      assert (0 as bv8 >> k) & 1 == 0;
    } else {
      var p := bs[..|bs| - 1];
      var x := FromBits(p) << 1;
      if k == 0 {
        assert x & 1 == 0;
      } else {
        BitShl(FromBits(p), k);
        BitOfFromBits(p, k - 1);
      }
    }
  }

  /** Shifting the bits of d back in, most significant first, gives d again. */
  lemma BitsRoundTrip(d: uint8)
    ensures FromBits(Bits(d)) == d
  {
    forall k | 0 <= k < 8
      ensures Bit(FromBits(Bits(d)), k) == Bit(d, k)
    {
      BitOfFromBits(Bits(d), k);
    }
    BitExtensional(FromBits(Bits(d)), d);
  }

  /** Distinct bytes have distinct bit sequences. */
  lemma BitsInjective(a: uint8, b: uint8)
    requires Bits(a) == Bits(b)
    ensures a == b
  {
    BitsRoundTrip(a);
    BitsRoundTrip(b);
  }

  /** Every sequence of eight bits is the bit sequence of exactly one byte. */
  lemma FromBitsRoundTrip(bs: seq<bool>)
    requires |bs| == 8
    ensures Bits(FromBits(bs)) == bs
  {
    forall i | 0 <= i < 8
      ensures Bits(FromBits(bs))[i] == bs[i]
    {
      BitOfFromBits(bs, 7 - i);
    }
  }

  /** The number of true entries of bs. */
  function CountTrue(bs: seq<bool>): (n: nat)
    ensures n <= |bs|
  {
    if bs == [] then 0 else (if bs[0] then 1 else 0) + CountTrue(bs[1..])
  }

  lemma {:induction false} CountTrueAppend(a: seq<bool>, b: seq<bool>)
    ensures CountTrue(a + b) == CountTrue(a) + CountTrue(b)
  {
    if a == [] {
      assert a + b == b;
    } else {
      assert (a + b)[1..] == a[1..] + b;
      CountTrueAppend(a[1..], b);
    }
  }

  /** The number of set bits among bits 0 .. k-1 of d. */
  function PopcountBelow(d: uint8, k: nat): nat
    requires k <= 8
  {
    if k == 0 then 0 else PopcountBelow(d, k - 1) + (if Bit(d, k - 1) then 1 else 0)
  }

  /** The number of set bits of d. */
  function Popcount(d: uint8): nat
  {
    PopcountBelow(d, 8)
  }

  lemma {:induction false} CountTrueBitsSuffix(d: uint8, k: nat)
    requires k <= 8
    ensures CountTrue(Bits(d)[8 - k..]) == PopcountBelow(d, k)
  {
    if k > 0 {
      var s := Bits(d)[8 - k..];
      assert s[1..] == Bits(d)[8 - (k - 1)..];
      CountTrueBitsSuffix(d, k - 1);
    }
  }

  /** The "one" entries of Bits(d) are exactly its set bits. */
  lemma CountTrueBits(d: uint8)
    ensures CountTrue(Bits(d)) == Popcount(d)
  {
    CountTrueBitsSuffix(d, 8);
    assert Bits(d)[0..] == Bits(d);
  }
}
