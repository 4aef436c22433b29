/** Bit strings: finite sequences of coefficients over GF(2), most significant first. */
module BitStrings {

  import opened Octets

  type Bits = seq<bool>

  function Zeros(n: nat): (z: Bits)
    ensures |z| == n
    ensures forall i :: 0 <= i < n ==> !z[i]
  {
    seq(n, _ => false)
  }

  /** Addition (and subtraction) over GF(2), coefficient by coefficient. */
  function Xor(a: Bits, b: Bits): (c: Bits)
    requires |a| == |b|
    ensures |c| == |a|
    ensures forall i :: 0 <= i < |a| ==> c[i] == (a[i] != b[i])
  {
    seq(|a|, i requires 0 <= i < |a| => a[i] != b[i])
  }

  lemma XorConcat(a: Bits, b: Bits, c: Bits, d: Bits)
    requires |a| == |c| && |b| == |d|
    ensures Xor(a + b, c + d) == Xor(a, c) + Xor(b, d)
  {
  }

  /** The eight bits of an octet, most significant first. */
  function OctetBits(b: Octet): (bits: Bits)
    ensures |bits| == 8
  {
    [HasBit(b, 0x80), HasBit(b, 0x40), HasBit(b, 0x20), HasBit(b, 0x10),
     HasBit(b, 0x08), HasBit(b, 0x04), HasBit(b, 0x02), HasBit(b, 0x01)]
  }

  predicate HasBit(b: Octet, mask: Octet) { b & mask != 0 }

  function BitsOf(s: Bytes): (bits: Bits)
    ensures |bits| == 8 * |s|
  {
    if s == [] then [] else OctetBits(s[0]) + BitsOf(s[1..])
  }

  lemma {:induction false} BitsOfConcat(a: Bytes, b: Bytes)
    ensures BitsOf(a + b) == BitsOf(a) + BitsOf(b)
  {
    if a == [] {
      assert a + b == b;
    } else {
      assert (a + b)[1..] == a[1..] + b;
      BitsOfConcat(a[1..], b);
    }
  }

  lemma OctetBitsInjective(a: Octet, b: Octet)
    requires OctetBits(a) == OctetBits(b)
    ensures a == b
  {
    var x, y := OctetBits(a), OctetBits(b);
    assert x[0] == y[0] && x[1] == y[1] && x[2] == y[2] && x[3] == y[3];
    assert x[4] == y[4] && x[5] == y[5] && x[6] == y[6] && x[7] == y[7];
  }

  /** A file is determined by its bits. */
  lemma {:induction false} BitsOfInjective(a: Bytes, b: Bytes)
    requires |a| == |b| && BitsOf(a) == BitsOf(b)
    ensures a == b
  {
    if a != [] {
      assert BitsOf(a)[..8] == OctetBits(a[0]) && BitsOf(b)[..8] == OctetBits(b[0]);
      OctetBitsInjective(a[0], b[0]);
      assert BitsOf(a)[8..] == BitsOf(a[1..]) && BitsOf(b)[8..] == BitsOf(b[1..]);
      BitsOfInjective(a[1..], b[1..]);
    }
  }
}
