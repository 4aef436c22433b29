/** Octets and 32-bit words, and their values as integers. The conversions are named so that
    proofs can hide them and use only the laws below. */
module Octets {

  type Octet = bv8
  type Bytes = seq<Octet>

  function Value(b: Octet): (n: nat)
    ensures n < 256
  {
    b as int
  }

  function OctetOf(n: int): Octet
    requires 0 <= n < 256
  {
    n as bv8
  }

  function ZeroOctets(n: nat): (z: Bytes)
    ensures |z| == n
    ensures forall i :: 0 <= i < n ==> z[i] == 0
  {
    seq(n, _ => 0)
  }

  lemma ValueOfOctet(n: int)
    requires 0 <= n < 256
    ensures Value(OctetOf(n)) == n
  {
    var b := OctetWithValue(n);
    OctetOfValue(b);
  }

  lemma {:induction false} OctetWithValue(n: int) returns (b: Octet)
    requires 0 <= n < 256
    ensures Value(b) == n
  {
    if n == 0 {
      b := 0;
    } else {
      b := OctetWithValue(n - 1);
      NextOctet(b);
      b := b + 1;
    }
  }

  lemma NextOctet(b: Octet)
    ensures Value(b) < 255 ==> Value(b + 1) == Value(b) + 1
  {
  }

  lemma OctetOfValue(b: Octet)
    ensures OctetOf(Value(b)) == b
  {
  }

  lemma ValueInjective(a: Octet, b: Octet)
    requires Value(a) == Value(b)
    ensures a == b
  {
    hide *;
    OctetOfValue(a);
    OctetOfValue(b);
  }

  function Nat(x: bv32): (n: nat)
    ensures n < 0x1_0000_0000
  {
    x as int
  }

  /** An octet as a 32-bit word. */
  function Word(b: Octet): bv32 { b as bv32 }

  lemma NatOfWord(b: Octet)
    ensures Nat(Word(b)) == Value(b)
  {
  }

  // ---- The four octets of a word, most significant first ----

  function Octet3(x: bv32): Octet { (x >> 24) as bv8 }

  function Octet2(x: bv32): Octet { ((x >> 16) & 0xff) as bv8 }

  function Octet1(x: bv32): Octet { ((x >> 8) & 0xff) as bv8 }

  function Octet0(x: bv32): Octet { (x & 0xff) as bv8 }

  /** The number with four given digits in base 256. */
  function Number(x3: nat, x2: nat, x1: nat, x0: nat): nat {
    256 * (256 * (256 * x3 + x2) + x1) + x0
  }

  lemma Split24(x: bv32) returns (low: bv32)
    ensures low == x & 0xff_ffff
    ensures Nat(x) == 0x100_0000 * Value(Octet3(x)) + Nat(low)
  {
    low := x & 0xff_ffff;
  }

  lemma Split16(x: bv32) returns (low: bv32)
    requires x < 0x100_0000
    ensures low == x & 0xffff && low < 0x1_0000
    ensures Nat(x) == 0x1_0000 * Value(Octet2(x)) + Nat(low)
  {
    low := x & 0xffff;
  }

  lemma Split8(x: bv32)
    requires x < 0x1_0000
    ensures Nat(x) == 0x100 * Value(Octet1(x)) + Value(Octet0(x))
  {
  }

  lemma SameOctets(x: bv32)
    ensures x & 0xff_ffff < 0x100_0000
    ensures Octet2(x) == Octet2(x & 0xff_ffff)
    ensures Octet1(x) == Octet1(x & 0xff_ffff & 0xffff)
    ensures Octet0(x) == Octet0(x & 0xff_ffff & 0xffff)
  {
  }

  lemma NatIsNumber(x: bv32)
    ensures Nat(x) == Number(Value(Octet3(x)), Value(Octet2(x)), Value(Octet1(x)), Value(Octet0(x)))
  {
    hide Nat, Value, Octet0, Octet1, Octet2, Octet3;
    SameOctets(x);
    var low24 := Split24(x);
    var low16 := Split16(low24);
    Split8(low16);
  }

  lemma NumberInjective(x3: nat, x2: nat, x1: nat, x0: nat, y3: nat, y2: nat, y1: nat, y0: nat)
    requires x3 < 256 && x2 < 256 && x1 < 256 && x0 < 256 && y3 < 256 && y2 < 256 && y1 < 256 && y0 < 256
    requires Number(x3, x2, x1, x0) == Number(y3, y2, y1, y0)
    ensures x3 == y3 && x2 == y2 && x1 == y1 && x0 == y0
  {
  }

  lemma WordFromOctets(x: bv32, y: bv32)
    requires Octet3(x) == Octet3(y) && Octet2(x) == Octet2(y) && Octet1(x) == Octet1(y) && Octet0(x) == Octet0(y)
    ensures x == y
  {
  }

  lemma NatInjective(x: bv32, y: bv32)
    requires Nat(x) == Nat(y)
    ensures x == y
  {
    hide Nat, Value, Octet0, Octet1, Octet2, Octet3, Number;
    NatIsNumber(x);
    NatIsNumber(y);
    NumberInjective(Value(Octet3(x)), Value(Octet2(x)), Value(Octet1(x)), Value(Octet0(x)),
                    Value(Octet3(y)), Value(Octet2(y)), Value(Octet1(y)), Value(Octet0(y)));
    ValueInjective(Octet3(x), Octet3(y));
    ValueInjective(Octet2(x), Octet2(y));
    ValueInjective(Octet1(x), Octet1(y));
    ValueInjective(Octet0(x), Octet0(y));
    WordFromOctets(x, y);
  }

  lemma OctetsOfXor(x: bv32, y: bv32)
    ensures Octet3(x ^ y) == Octet3(x) ^ Octet3(y)
    ensures Octet2(x ^ y) == Octet2(x) ^ Octet2(y)
    ensures Octet1(x ^ y) == Octet1(x) ^ Octet1(y)
    ensures Octet0(x ^ y) == Octet0(x) ^ Octet0(y)
  {
  }
}
