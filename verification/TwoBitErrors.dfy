/** Errors in exactly two bits: the powers of x modulo the generator polynomial repeat only
    after 2^32 - 1 steps. */
module TwoBitErrors {
  import opened Octets
  import opened BitStrings
  import opened Register
  import opened Checksum
  import ErrorDetection
  import opened NumberTheory

  const ORDER: nat := 0xffff_ffff

  /** x^n modulo the generator polynomial. */
  function Power(n: nat): bv32 {
    Iter(n, 1)
  }

  // ---- Products modulo the generator ----

  /** One step of Horner's scheme: times x, plus `a` if the next bit of the other factor is set. */
  function Horner1(a: bv32, b: bv32, r: bv32): bv32 {
    if Top(b) then Add(T(r), a) else T(r)
  }

  function Horner2(a: bv32, b: bv32, r: bv32): bv32 { Horner1(a, b << 1, Horner1(a, b, r)) }

  function Horner4(a: bv32, b: bv32, r: bv32): bv32 { Horner2(a, b << 2, Horner2(a, b, r)) }

  function Horner8(a: bv32, b: bv32, r: bv32): bv32 { Horner4(a, b << 4, Horner4(a, b, r)) }

  function Horner16(a: bv32, b: bv32, r: bv32): bv32 { Horner8(a, b << 8, Horner8(a, b, r)) }

  function Mul(a: bv32, b: bv32): bv32 { Horner16(a, b << 16, Horner16(a, b, 0)) }

  /** Horner's scheme over the bits of the other factor. */
  function Horner(a: bv32, m: Bits, r: bv32): bv32
    decreases |m|
  {
    if m == [] then r else Horner(a, m[1..], if m[0] then Add(T(r), a) else T(r))
  }

  lemma Unroll1(a: bv32, b: bv32, r: bv32, n: nat)
    ensures Horner(a, TopBits(b, n + 1), r) == Horner(a, TopBits(Shl(b), n), Horner1(a, b, r))
  {
    hide T, Add, Top, Shl;
    assert TopBits(b, n + 1)[1..] == TopBits(Shl(b), n);
  }

  lemma Unroll2(a: bv32, b: bv32, r: bv32, n: nat)
    ensures Horner(a, TopBits(b, n + 2), r) == Horner(a, TopBits(b << 2, n), Horner2(a, b, r))
  {
    var a1, a2, _, _, _, _, _, _ := ShlChain(b);
    hide T, Add, Top, Shl, Horner, TopBits, Horner1;
    Unroll1(a, b, r, n + 1);
    Unroll1(a, a1, Horner1(a, b, r), n);
  }

  lemma Unroll4(a: bv32, b: bv32, r: bv32, n: nat)
    ensures Horner(a, TopBits(b, n + 4), r) == Horner(a, TopBits(b << 4, n), Horner4(a, b, r))
  {
    hide T, Add, Top, Shl, Horner, TopBits, Horner1, Horner2;
    Unroll2(a, b, r, n + 2);
    Unroll2(a, b << 2, Horner2(a, b, r), n);
    assert (b << 2) << 2 == b << 4;
  }

  lemma Unroll8(a: bv32, b: bv32, r: bv32, n: nat)
    ensures Horner(a, TopBits(b, n + 8), r) == Horner(a, TopBits(b << 8, n), Horner8(a, b, r))
  {
    hide T, Add, Top, Shl, Horner, TopBits, Horner1, Horner2, Horner4;
    Unroll4(a, b, r, n + 4);
    Unroll4(a, b << 4, Horner4(a, b, r), n);
    assert (b << 4) << 4 == b << 8;
  }

  lemma Unroll16(a: bv32, b: bv32, r: bv32, n: nat)
    ensures Horner(a, TopBits(b, n + 16), r) == Horner(a, TopBits(b << 16, n), Horner16(a, b, r))
  {
    hide T, Add, Top, Shl, Horner, TopBits, Horner1, Horner2, Horner4, Horner8;
    Unroll8(a, b, r, n + 8);
    Unroll8(a, b << 8, Horner8(a, b, r), n);
    assert (b << 8) << 8 == b << 16;
  }

  lemma MulIsHorner(a: bv32, b: bv32)
    ensures Mul(a, b) == Horner(a, TopBits(b, 32), 0)
  {
    hide T, Add, Top, Shl, Horner1, Horner2, Horner4, Horner8, Horner16;
    Unroll16(a, b, 0, 16);
    Unroll16(a, b << 16, Horner16(a, b, 0), 0);
  }

  /** Multiplying by a power of x commutes with Horner's scheme. */
  lemma {:induction false} IterHorner(n: nat, a: bv32, m: Bits, r: bv32)
    ensures Iter(n, Horner(a, m, r)) == Horner(Iter(n, a), m, Iter(n, r))
    decreases |m|
  {
    hide T, Add, Iter;
    if m != [] {
      var r' := if m[0] then Add(T(r), a) else T(r);
      IterLinear(n, T(r), a);
      IterT(n, r);
      IterHorner(n, a, m[1..], r');
    }
  }

  lemma IterT(n: nat, r: bv32)
    ensures Iter(n, T(r)) == T(Iter(n, r))
  {
    hide T;
    IterAdd(n, 1, r);
    assert Iter(1, r) == T(Iter(0, r));
  }

  /** Horner's scheme on 1 collects the bits, which feeding them to the register also does, except
      that the register is 32 powers of x ahead. */
  lemma {:induction false} HornerFeed(m: Bits, r: bv32)
    ensures Iter(32, Horner(1, m, r)) == Feed(Iter(32, r), m)
    decreases |m|
  {
    hide T, Add, Iter, TOP;
    if m != [] {
      var r' := if m[0] then Add(T(r), 1) else T(r);
      IterLinear(32, T(r), 1);
      IterT(32, r);
      PowerTop();
      TLinear(Iter(32, r), TOP);
      HornerFeed(m[1..], r');
    }
  }

  lemma PowerTop()
    ensures Power(31) == TOP && Iter(32, 1) == T(TOP)
  {
    UnitShifts();
    hide T, T8, POLY;
    T8IsIter(1);
    T8IsIter(0x100);
    T8IsIter(0x1_0000);
    IterAdd(8, 8, 1);
    IterAdd(8, 16, 1);
    IterAdd(7, 24, 1);
    assert Iter(8, 0x100_0000) == T(Iter(7, 0x100_0000));
    IterAdd(8, 24, 1);
    T8IsIter(0x100_0000);
    assert T(Iter(7, 0x100_0000)) == T(TOP);
    TInjective(Iter(7, 0x100_0000), TOP);
  }

  lemma UnitShifts()
    ensures T8(1) == 0x100 && T8(0x100) == 0x1_0000 && T8(0x1_0000) == 0x100_0000
    ensures T8(0x100_0000) == T(TOP)
  {
  }

  lemma HornerUnit(w: bv32)
    ensures Horner(1, TopBits(w, 32), 0) == w
  {
    hide *;
    var h := Horner(1, TopBits(w, 32), 0);
    HornerFeed(TopBits(w, 32), 0);
    IterZero(32, 0);
    FeedWord(0, w, 32);
    AddLaws(w, 0);
    ShlBy32(w);
    AddLaws(Feed(0, TopBits(w, 32)), 0);
    IterInjective(32, h, w);
  }

  lemma PowerAdd(m: nat, n: nat)
    ensures Power(m + n) == Mul(Power(m), Power(n))
  {
    PowerIs(m);
    PowerIs(n);
    PowerIs(m + n);
    hide *;
    IterAdd(m, n, 1);
    HornerUnit(Power(n));
    IterHorner(m, 1, TopBits(Power(n), 32), 0);
    IterZero(m, 0);
    MulIsHorner(Power(m), Power(n));
  }

  lemma PowerIs(n: nat)
    ensures Power(n) == Iter(n, 1)
  {
  }

  // ---- The powers of x at the orders to be excluded ----

  // (each line is one product of two words, evaluated by the verifier)

  lemma Product0() ensures Mul(0x0000_0002, 0x0000_0002) == 0x0000_0004 {}

  lemma Product1() ensures Mul(0x0000_0004, 0x0000_0004) == 0x0000_0010 {}

  lemma Product2() ensures Mul(0x0000_0010, 0x0000_0010) == 0x0000_0100 {}

  lemma Product3() ensures Mul(0x0000_0100, 0x0000_0100) == 0x0001_0000 {}

  lemma Product4() ensures Mul(0x0001_0000, 0x0001_0000) == 0x04c1_1db7 {}

  lemma Product5() ensures Mul(0x04c1_1db7, 0x04c1_1db7) == 0x490d_678d {}

  lemma Product6() ensures Mul(0x490d_678d, 0x490d_678d) == 0xe8a4_5605 {}

  lemma Product7() ensures Mul(0xe8a4_5605, 0xe8a4_5605) == 0x75be_46b7 {}

  lemma Product8() ensures Mul(0x75be_46b7, 0x75be_46b7) == 0xe622_8b11 {}

  lemma Product9() ensures Mul(0xe622_8b11, 0xe622_8b11) == 0x567f_ddeb {}

  lemma Product10() ensures Mul(0x567f_ddeb, 0x567f_ddeb) == 0x88fe_2237 {}

  lemma Product11() ensures Mul(0x88fe_2237, 0x88fe_2237) == 0x0e85_7e71 {}

  lemma Product12() ensures Mul(0x0e85_7e71, 0x0e85_7e71) == 0x7001_e426 {}

  lemma Product13() ensures Mul(0x7001_e426, 0x7001_e426) == 0x075d_e2b2 {}

  lemma Product14() ensures Mul(0x075d_e2b2, 0x075d_e2b2) == 0xf12a_7f90 {}

  lemma Product15() ensures Mul(0xf12a_7f90, 0xf12a_7f90) == 0xf0b4_a1c1 {}

  lemma Product16() ensures Mul(0xe5a8_5e35, 0xe5a8_5e35) == 0x6710_ad87 {}

  lemma Product17() ensures Mul(0x6710_ad87, 0x6710_ad87) == 0x0699_3684 {}

  lemma Product18() ensures Mul(0x0699_3684, 0x0699_3684) == 0xbce4_fa2c {}

  lemma Product19() ensures Mul(0xbce4_fa2c, 0xbce4_fa2c) == 0x174c_a681 {}

  lemma Product20() ensures Mul(0x174c_a681, 0x174c_a681) == 0xeb8f_3c49 {}

  lemma Product21() ensures Mul(0xeb8f_3c49, 0xeb8f_3c49) == 0x0127_72c9 {}

  lemma Product22() ensures Mul(0x0127_72c9, 0x0127_72c9) == 0x0a2c_6d74 {}

  lemma Product23() ensures Mul(0x0a2c_6d74, 0x0a2c_6d74) == 0x58ab_0c62 {}

  lemma Product24() ensures Mul(0x58ab_0c62, 0xe5a8_5e35) == 0x85da_d68c {}

  lemma Product25() ensures Mul(0x85da_d68c, 0x85da_d68c) == 0x38d9_84da {}

  lemma Product26() ensures Mul(0x38d9_84da, 0x38d9_84da) == 0x25ea_fd75 {}

  lemma Product27() ensures Mul(0x25ea_fd75, 0x25ea_fd75) == 0x0647_edbe {}

  lemma Product28() ensures Mul(0x0647_edbe, 0x0647_edbe) == 0x053c_1430 {}

  lemma Product29() ensures Mul(0x053c_1430, 0x85da_d68c) == 0x80e6_c2bc {}

  lemma Product30() ensures Mul(0x80e6_c2bc, 0x80e6_c2bc) == 0xca31_ae5f {}

  lemma Product31() ensures Mul(0xca31_ae5f, 0xca31_ae5f) == 0x80e6_c2bd {}

  lemma Product32() ensures Mul(0x80e6_c2bd, 0x80e6_c2bc) == 0x4ad7_6ce3 {}

  lemma Product33() ensures Mul(0xca31_ae5f, 0x80e6_c2bc) == 0x1e48_8021 {}

  lemma Product34() ensures Mul(0x80e6_c2bd, 0x80e6_c2bd) == 0xca31_ae5e {}

  lemma Product35() ensures Mul(0xca31_ae5e, 0xca31_ae5e) == 0x80e6_c2bc {}

  lemma PowersOfX()
    ensures Power(1) == 0x0000_0002 && Power(65536) == 0xf0b4_a1c1
  {
    PowerOne();
    hide *;
    Product0();
    PowerAdd(1, 1);
    Product1();
    PowerAdd(2, 2);
    Product2();
    PowerAdd(4, 4);
    Product3();
    PowerAdd(8, 8);
    Product4();
    PowerAdd(16, 16);
    Product5();
    PowerAdd(32, 32);
    Product6();
    PowerAdd(64, 64);
    Product7();
    PowerAdd(128, 128);
    Product8();
    PowerAdd(256, 256);
    Product9();
    PowerAdd(512, 512);
    Product10();
    PowerAdd(1024, 1024);
    Product11();
    PowerAdd(2048, 2048);
    Product12();
    PowerAdd(4096, 4096);
    Product13();
    PowerAdd(8192, 8192);
    Product14();
    PowerAdd(16384, 16384);
    Product15();
    PowerAdd(32768, 32768);
  }

  lemma PowerOne()
    ensures Power(1) == 2
  {
    assert Iter(0, 1) == 1;
    hide Iter;
    assert Iter(1, 1) == T(Iter(0, 1)) by { IterOnce(); }
  }

  lemma IterOnce()
    ensures Iter(1, 1) == T(Iter(0, 1)) == 2
  {
  }

  lemma Power65537()
    ensures Power(65537) == 0xe5a8_5e35 && Power(16777472) == 0x58ab_0c62
  {
    TimesX();
    hide *;
    PowersOfX();
    PowerNext(65536);
    Product16();
    PowerAdd(65537, 65537);
    Product17();
    PowerAdd(131074, 131074);
    Product18();
    PowerAdd(262148, 262148);
    Product19();
    PowerAdd(524296, 524296);
    Product20();
    PowerAdd(1048592, 1048592);
    Product21();
    PowerAdd(2097184, 2097184);
    Product22();
    PowerAdd(4194368, 4194368);
    Product23();
    PowerAdd(8388736, 8388736);
  }

  lemma TimesX()
    ensures T(0xf0b4_a1c1) == 0xe5a8_5e35
  {
  }

  lemma PowerNext(n: nat)
    ensures Power(n + 1) == T(Power(n))
  {
    hide T;
  }

  const SUB8: nat := 65537 * 257

  lemma PowerSub8()
    ensures Power(SUB8) == 0x85da_d68c && Power(SUB8 * 16) == 0x053c_1430
  {
    assert SUB8 == 16777472 + 65537;
    hide *;
    Power65537();
    Product24();
    PowerAdd(16777472, 65537);
    Product25();
    PowerAdd(SUB8, SUB8);
    Product26();
    PowerAdd(SUB8 * 2, SUB8 * 2);
    Product27();
    PowerAdd(SUB8 * 4, SUB8 * 4);
    Product28();
    PowerAdd(SUB8 * 8, SUB8 * 8);
  }

  const SUB4: nat := 65537 * 257 * 17

  lemma PowerSub4()
    ensures Power(SUB4) == 0x80e6_c2bc && Power(SUB4 * 3) == 0x1e48_8021
    ensures Power(SUB4 * 5) == 0x4ad7_6ce3 && Power(SUB4 * 16) == 0x80e6_c2bc
  {
    assert SUB4 == SUB8 * 16 + SUB8;
    hide *;
    PowerSub8();
    Product29();
    PowerAdd(SUB8 * 16, SUB8);
    Product30();
    PowerAdd(SUB4, SUB4);
    Product31();
    PowerAdd(SUB4 * 2, SUB4 * 2);
    Product32();
    PowerAdd(SUB4 * 4, SUB4);
    Product33();
    PowerAdd(SUB4 * 2, SUB4);
    Product34();
    PowerAdd(SUB4 * 4, SUB4 * 4);
    Product35();
    PowerAdd(SUB4 * 8, SUB4 * 8);
  }

  lemma PowerCancel(m: nat, n: nat)
    ensures Power(m + n) == Power(n) <==> Power(m) == 1
  {
    PowerIs(m);
    PowerIs(n);
    PowerIs(m + n);
    hide *;
    IterAdd(n, m, 1);
    if Power(m + n) == Power(n) { IterInjective(n, Power(m), 1); }
  }

  lemma NoReturnEarly()
    ensures Power(65535) != 1 && Power(16711935) != 1 && Power(SUB8 * 15) != 1
    ensures Power(SUB4 * 5) != 1 && Power(SUB4 * 3) != 1
  {
    hide Power, SUB8, SUB4;
    PowersOfX();
    PowerCancel(65535, 1);
    Power65537();
    PowerCancel(16711935, 65537);
    PowerSub8();
    PowerCancel(SUB8 * 15, SUB8);
    PowerSub4();
  }

  lemma ReturnAtOrder()
    ensures Power(SUB4 * 15) == 1
  {
    hide Power, SUB4;
    PowerSub4();
    PowerCancel(SUB4 * 15, SUB4);
  }

  /** None of the maximal proper divisors of 2^32 - 1 is an exponent at which x returns to 1. */
  lemma Exponents()
    ensures Power(ORDER) == 1
    ensures Power(ORDER / 3) != 1 && Power(ORDER / 5) != 1 && Power(ORDER / 17) != 1
    ensures Power(ORDER / 257) != 1 && Power(ORDER / 65537) != 1
  {
    Quotients();
    hide *;
    NoReturnEarly();
    ReturnAtOrder();
  }

  lemma Quotients()
    ensures ORDER == SUB4 * 15 && ORDER / 3 == SUB4 * 5 && ORDER / 5 == SUB4 * 3
    ensures ORDER / 17 == SUB8 * 15 && ORDER / 257 == 16711935 && ORDER / 65537 == 65535
  {
  }

  // ---- The order of x ----

  lemma {:induction false} PowerMultiple(n: nat, q: nat)
    requires Power(n) == 1
    ensures Power(n * q) == 1
  {
    if q > 0 {
      PowerMultiple(n, q - 1);
      PowerCancel(n * (q - 1), n);
      assert n * (q - 1) + n == n * q;
    } else {
      assert n * q == 0;
    }
  }

  lemma {:induction false} PowerGcd(a: nat, b: nat)
    requires Power(a) == 1 && Power(b) == 1
    ensures Power(Gcd(a, b)) == 1
    decreases b
  {
    hide Power;
    if b > 0 {
      PowerMultiple(b, a / b);
      PowerCancel(a % b, b * (a / b));
      assert a % b + b * (a / b) == a;
      PowerGcd(b, a % b);
    }
  }

  /** An exponent dividing 2^32 - 1 at which x returns to 1 is a multiple of each prime factor. */
  lemma FactorOfExponent(g: nat, p: nat)
    requires g > 0 && Power(g) == 1 && NumberTheory.Divides(g, ORDER)
    requires IsPrime(p) && p * (ORDER / p) == ORDER && Power(ORDER / p) != 1
    ensures NumberTheory.Divides(p, g)
  {
    hide Power, ORDER;
    if !NumberTheory.Divides(p, g) {
      PrimeFactor(g, p, ORDER / p);
      var q := MultipleOf(g, ORDER / p);
      PowerMultiple(g, q);
    }
  }

  /** x returns to 1 at exactly the multiples of 2^32 - 1: the generator is primitive. */
  lemma OrderOfX(k: nat)
    ensures Power(k) == 1 <==> k % ORDER == 0
  {
    Exponents();
    if k % ORDER == 0 {
      PowerMultiple(ORDER, k / ORDER);
      assert k == ORDER * (k / ORDER);
    }
    if Power(k) == 1 {
      GcdDivides(k, ORDER);
      hide Power;
      PowerGcd(k, ORDER);
      LeastExponent(Gcd(k, ORDER));
    }
  }

  lemma LeastExponent(g: nat)
    requires g > 0 && Power(g) == 1 && NumberTheory.Divides(g, ORDER)
    ensures g == ORDER
  {
    Exponents();
    FermatPrimes();
    hide Power, IsPrime;
    FactorOfExponent(g, 3);
    FactorOfExponent(g, 5);
    FactorOfExponent(g, 17);
    FactorOfExponent(g, 257);
    FactorOfExponent(g, 65537);
    OddNeighbours(g, 3);
    OddNeighbours(g, 15);
    OddNeighbours(g, 255);
    OddNeighbours(g, 65535);
  }

  // ---- Two-bit errors ----

  ghost predicate DifferExactlyAt(a: Bytes, b: Bytes, i: nat, j: nat)
    requires |a| == |b|
  {
    && i < j < 8 * |a|
    && forall k :: 0 <= k < 8 * |a| ==> (BitsOf(a)[k] != BitsOf(b)[k] <==> k == i || k == j)
  }

  lemma FeedTwoBits(k: nat)
    requires k > 0
    ensures Feed(0, [true] + Zeros(k - 1) + [true]) == 0 <==> Power(k) == 1
  {
    hide *;
    FeedOne(0);
    FeedConcat(0, [true] + Zeros(k - 1), [true]);
    FeedConcat(0, [true], Zeros(k - 1));
    FeedZeros(T(TOP), k - 1);
    IterAdd(k - 1, 1, TOP);
    IterOne(TOP);
    FeedOne(Iter(k, TOP));
    TZero(Add(Iter(k, TOP), TOP));
    AddCancel(Iter(k, TOP), TOP);
    AddLaws(TOP, TOP);
    AddLaws(TOP, 0);
    PowerTop();
    PowerIs(31);
    PowerIs(k + 31);
    IterAdd(k, 31, 1);
    PowerCancel(k, 31);
  }

  lemma FeedOne(s: bv32)
    ensures Feed(s, [true]) == T(Add(s, TOP))
  {
    hide T, Add;
    assert [true][1..] == [];
  }

  lemma IterOne(s: bv32)
    ensures Iter(1, s) == T(s)
  {
    hide T;
    assert Iter(0, s) == s;
  }

  lemma SplitTwoBits(d: Bits, i: nat, j: nat)
    requires i < j < |d| && forall k :: 0 <= k < |d| ==> (d[k] <==> k == i || k == j)
    ensures d == Zeros(i) + ([true] + Zeros(j - i - 1) + [true]) + Zeros(|d| - j - 1)
  {
  }

  /** Two flipped bits go unnoticed exactly when their distance is a multiple of 2^32 - 1 bits. */
  lemma TwoBitErrors(a: Bytes, b: Bytes, i: nat, j: nat)
    requires |a| == |b| && DifferExactlyAt(a, b, i, j)
    ensures Cksum(a) == Cksum(b) <==> (j - i) % ORDER == 0
  {
    ErrorDetection.DifferenceIs(a, b);
    SplitTwoBits(ErrorDetection.Difference(a, b), i, j);
    hide *;
    ErrorDetection.FeedPadded(i, [true] + Zeros(j - i - 1) + [true], |ErrorDetection.Difference(a, b)| - j - 1);
    FeedTwoBits(j - i);
    OrderOfX(j - i);
    ErrorDetection.SameCksum(a, b);
  }

  /** The largest ciphertext that 65535 packets of 4096 octets can carry. */
  const LARGEST: nat := 65535 * 4096

  /** No file that can be sent is that long: any two flipped bits are noticed. */
  lemma TwoBitErrorsNoticed(a: Bytes, b: Bytes, i: nat, j: nat)
    requires |a| == |b| <= LARGEST && DifferExactlyAt(a, b, i, j)
    ensures Cksum(a) != Cksum(b)
  {
    hide Cksum, ORDER, DifferExactlyAt;
    TwoBitErrors(a, b, i, j);
    DistanceTooShort(a, b, i, j);
  }

  lemma DistanceTooShort(a: Bytes, b: Bytes, i: nat, j: nat)
    requires |a| == |b| <= LARGEST && DifferExactlyAt(a, b, i, j)
    ensures (j - i) % ORDER != 0
  {
    hide BitsOf;
    assert 0 < j - i < ORDER;
  }
}
