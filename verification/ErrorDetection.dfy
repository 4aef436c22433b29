/** What the checksum detects: two files of equal length and what differs between them. */
module ErrorDetection {
  import opened Octets
  import opened BitStrings
  import opened Register
  import opened Checksum

  function Difference(a: Bytes, b: Bytes): (d: Bits)
    requires |a| == |b|
    ensures |d| == 8 * |a|
  {
    Xor(BitsOf(a), BitsOf(b))
  }

  /** For files of equal length only the difference matters, and it matters linearly. */
  lemma CksumDifference(a: Bytes, b: Bytes)
    requires |a| == |b|
    ensures Add(Cksum(a), Cksum(b)) == Iter(8 * |LengthOctets(|a|)|, Feed(0, Difference(a, b)))
  {
    hide *;
    var tail := BitsOf(LengthOctets(|a|));
    var s, t := Feed(0, BitsOf(a)), Feed(0, BitsOf(b));
    RestOfData(a);
    RestOfData(b);
    RestIs(s, |a|);
    RestIs(t, |a|);
    ComplementCancels(Feed(s, tail), Feed(t, tail));
    FeedLinear(s, t, tail, tail);
    XorSelf(tail);
    FeedZeros(Add(s, t), |tail|);
    AddLaws(0, 0);
    FeedLinear(0, 0, BitsOf(a), BitsOf(b));
    DifferenceIs(a, b);
  }

  lemma RestIs(s: bv32, n: nat)
    ensures Rest(s, n) == Feed(s, BitsOf(LengthOctets(n)))
  {
  }

  lemma DifferenceIs(a: Bytes, b: Bytes)
    requires |a| == |b|
    ensures Difference(a, b) == Xor(BitsOf(a), BitsOf(b))
  {
  }

  lemma ComplementCancels(x: bv32, y: bv32)
    ensures Add(Complement(x), Complement(y)) == Add(x, y)
  {
  }

  lemma XorSelf(m: Bits)
    ensures Xor(m, m) == Zeros(|m|)
  {
  }

  /** Files of equal length have the same checksum exactly when their difference, as a polynomial,
      leaves the register at zero. */
  lemma SameCksum(a: Bytes, b: Bytes)
    requires |a| == |b|
    ensures Cksum(a) == Cksum(b) <==> Feed(0, Difference(a, b)) == 0
  {
    hide *;
    CksumDifference(a, b);
    AddCancel(Cksum(a), Cksum(b));
    AddLaws(Cksum(a), Cksum(a));
    IterZero(8 * |LengthOctets(|a|)|, Feed(0, Difference(a, b)));
  }

  // ---- Affinity ----

  function XorBytes(a: Bytes, b: Bytes): (c: Bytes)
    requires |a| == |b|
    ensures |c| == |a|
  {
    seq(|a|, i requires 0 <= i < |a| => a[i] ^ b[i])
  }

  lemma {:induction false} BitsOfXor(a: Bytes, b: Bytes)
    requires |a| == |b|
    ensures BitsOf(XorBytes(a, b)) == Xor(BitsOf(a), BitsOf(b))
  {
    hide OctetBits;
    if a != [] {
      var c := XorBytes(a, b);
      assert c[1..] == XorBytes(a[1..], b[1..]);
      BitsOfXor(a[1..], b[1..]);
      OctetBitsXor(a[0], b[0]);
      XorConcat(OctetBits(a[0]), BitsOf(a[1..]), OctetBits(b[0]), BitsOf(b[1..]));
    }
  }

  lemma OctetBitsXor(x: Octet, y: Octet)
    ensures OctetBits(x ^ y) == Xor(OctetBits(x), OctetBits(y))
  {
    hide *;
    forall i | 0 <= i < 8 ensures OctetBits(x ^ y)[i] == (OctetBits(x)[i] != OctetBits(y)[i]) {
      var m := BitAt(i);
      assert OctetBits(x ^ y)[i] == HasBit(x ^ y, m);
      assert OctetBits(x)[i] == HasBit(x, m);
      assert OctetBits(y)[i] == HasBit(y, m);
      HasBitXor(x, y, m);
    }
  }

  /** The mask of bit `i` of an octet. */
  lemma BitAt(i: int) returns (m: Octet)
    requires 0 <= i < 8
    ensures m in [0x80, 0x40, 0x20, 0x10, 0x08, 0x04, 0x02, 0x01]
    ensures forall b: Octet :: OctetBits(b)[i] == HasBit(b, m)
  {
    hide HasBit;
    m := if i == 0 then 0x80 else if i == 1 then 0x40 else if i == 2 then 0x20 else if i == 3 then 0x10
         else if i == 4 then 0x08 else if i == 5 then 0x04 else if i == 6 then 0x02 else 0x01;
  }

  lemma HasBitXor(x: Octet, y: Octet, m: Octet)
    requires m in [0x80, 0x40, 0x20, 0x10, 0x08, 0x04, 0x02, 0x01]
    ensures HasBit(x ^ y, m) == (HasBit(x, m) != HasBit(y, m))
  {
  }

  lemma {:induction false} BitsOfZeros(n: nat)
    ensures BitsOf(ZeroOctets(n)) == Zeros(8 * n)
  {
    if n > 0 {
      assert ZeroOctets(n)[1..] == ZeroOctets(n - 1);
      BitsOfZeros(n - 1);
      assert OctetBits(0) == Zeros(8);
    }
  }

  /** crc(a) ^ crc(b) ^ crc(0...0) == crc(a ^ b). */
  lemma CksumAffine(a: Bytes, b: Bytes)
    requires |a| == |b|
    ensures Add(Add(Cksum(a), Cksum(b)), Cksum(ZeroOctets(|a|))) == Cksum(XorBytes(a, b))
  {
    hide *;
    var c, z := XorBytes(a, b), ZeroOctets(|a|);
    CksumDifference(a, b);
    CksumDifference(c, z);
    DifferenceToZero(a, b);
    AddCancel(Cksum(c), Cksum(z));
  }

  lemma DifferenceToZero(a: Bytes, b: Bytes)
    requires |a| == |b|
    ensures Difference(XorBytes(a, b), ZeroOctets(|a|)) == Difference(a, b)
  {
    hide BitsOf, XorBytes, ZeroOctets;
    BitsOfXor(a, b);
    BitsOfZeros(|a|);
  }

  // ---- Bursts ----

  /** All differing bits lie in a window of `w` consecutive bits. */
  ghost predicate DifferWithin(a: Bytes, b: Bytes, w: nat)
    requires |a| == |b|
  {
    exists p: nat :: OutsideAgrees(BitsOf(a), BitsOf(b), p, w)
  }

  ghost predicate OutsideAgrees(x: Bits, y: Bits, p: nat, w: nat)
    requires |x| == |y|
  {
    forall i :: 0 <= i < |x| && (i < p || p + w <= i) ==> x[i] == y[i]
  }

  /** A short non-zero bit string does not leave the register at zero. */
  lemma ShortFeed(m: Bits)
    requires |m| <= 32 && m != Zeros(|m|)
    ensures Feed(0, m) != 0
  {
    hide *;
    var w := WordOf(m);
    FeedWord(0, w, |m|);
    AddLaws(Feed(0, m), 0);
    AddLaws(w, 0);
    IterZero(|m|, w);
    TopBitsOfZero(|m|);
  }

  /** Zero bits before a string do not move the register from zero, and after it they cannot
      bring it back to zero. */
  lemma FeedPadded(before: nat, m: Bits, after: nat)
    ensures Feed(0, Zeros(before) + m + Zeros(after)) == 0 <==> Feed(0, m) == 0
  {
    hide *;
    FeedConcat(0, Zeros(before) + m, Zeros(after));
    FeedConcat(0, Zeros(before), m);
    FeedZeros(0, before);
    IterZero(before, 0);
    FeedZeros(Feed(0, m), after);
    IterZero(after, Feed(0, m));
  }

  /** Every burst error of at most 32 bits, at any bit position, changes the checksum. */
  lemma BurstDetected(a: Bytes, b: Bytes)
    requires |a| == |b| && a != b && DifferWithin(a, b, 32)
    ensures Cksum(a) != Cksum(b)
  {
    hide *;
    var x, y, p := Window(a, b);
    var d := Difference(a, b);
    DifferenceIs(a, b);
    var n := |d|;
    var hi := if p + 32 < n then p + 32 else n;
    SplitWindow(x, y, p, hi);
    if d[p..hi] == Zeros(hi - p) {
      NoDifference(x, y, p, hi);
      BitsOfInjective(a, b);
    }
    ShortFeed(d[p..hi]);
    FeedPadded(p, d[p..hi], n - hi);
    SameCksum(a, b);
  }

  lemma Window(a: Bytes, b: Bytes) returns (x: Bits, y: Bits, p: nat)
    requires |a| == |b| && DifferWithin(a, b, 32)
    ensures x == BitsOf(a) && y == BitsOf(b) && p <= |x|
    ensures forall i :: 0 <= i < |x| && (i < p || p + 32 <= i) ==> x[i] == y[i]
  {
    x, y := BitsOf(a), BitsOf(b);
    p :| OutsideAgrees(x, y, p, 32);
    if p > |x| { p := |x|; }
  }

  lemma SplitWindow(x: Bits, y: Bits, p: nat, hi: nat)
    requires |x| == |y| && p <= hi <= |x|
    requires forall i :: 0 <= i < |x| && (i < p || hi <= i) ==> x[i] == y[i]
    ensures Xor(x, y) == Zeros(p) + Xor(x, y)[p..hi] + Zeros(|x| - hi)
  {
    hide Xor, Zeros;
    var d := Xor(x, y);
    assert d[..p] == Zeros(p);
    assert d[hi..] == Zeros(|x| - hi);
    assert d == d[..p] + d[p..hi] + d[hi..];
  }

  lemma NoDifference(x: Bits, y: Bits, p: nat, hi: nat)
    requires |x| == |y| && p <= hi <= |x|
    requires forall i :: 0 <= i < |x| && (i < p || hi <= i) ==> x[i] == y[i]
    requires Xor(x, y)[p..hi] == Zeros(hi - p)
    ensures x == y
  {
    forall i | 0 <= i < |x| ensures x[i] == y[i] {
      if p <= i < hi { assert Xor(x, y)[p..hi][i - p] == Zeros(hi - p)[i - p]; }
    }
  }

  // ---- Length ----

  /** Files of different lengths may collide: a file of n > 0 zero octets and one of 256 n. */
  lemma LengthCollision(n: nat)
    requires n > 0
    ensures Cksum(ZeroOctets(n)) == Cksum(ZeroOctets(256 * n))
  {
    hide *;
    ZerosCksum(n);
    ZerosCksum(256 * n);
    LengthTimes256(n);
    FeedConcat(0, BitsOf([OctetOf(0)]), BitsOf(LengthOctets(n)));
    BitsOfConcat([OctetOf(0)], LengthOctets(n));
    ZeroOctetFeed();
  }

  lemma ZerosCksum(n: nat)
    ensures Cksum(ZeroOctets(n)) == Complement(Feed(0, BitsOf(LengthOctets(n))))
  {
    hide *;
    RestOfData(ZeroOctets(n));
    BitsOfZeros(n);
    FeedZeros(0, 8 * n);
    IterZero(8 * n, 0);
    RestIs(0, n);
  }

  lemma LengthTimes256(n: nat)
    requires n > 0
    ensures LengthOctets(256 * n) == [OctetOf(0)] + LengthOctets(n)
  {
    assert 256 * n % 256 == 0 && 256 * n / 256 == n;
  }

  lemma ZeroOctetFeed()
    ensures Feed(0, BitsOf([OctetOf(0)])) == 0
  {
    assert [OctetOf(0)] == ZeroOctets(1);
    hide *;
    BitsOfZeros(1);
    FeedZeros(0, 8);
    IterZero(8, 0);
  }
}
