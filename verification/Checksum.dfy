/** The checksum of both programs: a table-driven CRC over the data and its length. */
module Checksum {
  import opened Octets
  import opened BitStrings
  import opened Register
  import Division
  import opened CrcTable

  // ---- Specification: the checksum one bit at a time ----

  /** The length in octets, least significant first, without leading zero octets. */
  function LengthOctets(n: nat): Bytes {
    if n == 0 then [] else [OctetOf(n % 256)] + LengthOctets(n / 256)
  }

  function Message(data: Bytes): Bits {
    BitsOf(data + LengthOctets(|data|))
  }

  function Complement(s: bv32): bv32 { !s }

  function Cksum(data: Bytes): bv32 {
    Complement(Feed(0, Message(data)))
  }

  /** POSIX `cksum`: the complement of the CRC is the remainder, and the only one, of the data
      followed by its length octets, times x^32, divided by the generator polynomial. */
  lemma CksumIsPosix(data: Bytes, r: Bits)
    ensures Division.IsRemainder(Message(data) + Zeros(32), r) <==> r == Division.Contents(Complement(Cksum(data)))
  {
    assert Complement(Cksum(data)) == Feed(0, Message(data));
    hide *;
    Division.RegisterIsRemainder(Message(data));
    if Division.IsRemainder(Message(data) + Zeros(32), r) {
      Division.RemainderUnique(Message(data) + Zeros(32), r, Division.Contents(Feed(0, Message(data))));
    }
  }

  // ---- The table-driven update is eight steps of the register ----

  predicate InTable(s: bv32, c: Octet) {
    Nat((s >> 24) ^ Word(c)) < |CRCTAB|
  }

  /** The update the C++ program makes for an octet `c`. */
  function Update(s: bv32, c: Octet): bv32
    requires InTable(s, c)
  {
    (s << 8) ^ CRCTAB[Nat((s >> 24) ^ Word(c))]
  }

  lemma IndexInTable(s: bv32, c: Octet)
    ensures |CRCTAB| == 256 && InTable(s, c)
  {
    var x := TableIndex(s, c);
    hide CRCTAB;
    TableEntry(x);
  }

  lemma TableIndex(s: bv32, c: Octet) returns (x: bv32)
    ensures x == (s >> 24) ^ Word(c) && x < 256
    ensures Add(s, Place(c)) == Add(x << 24, s & 0xff_ffff)
  {
    x := (s >> 24) ^ Word(c);
  }

  lemma T8OfLowWord(s: bv32)
    ensures T8(s & 0xff_ffff) == s << 8
  {
    var a1, a2, a3, a4, a5, a6, a7, a8 := ShlChain(s & 0xff_ffff);
    assert !Top(s & 0xff_ffff) && !Top(a1) && !Top(a2) && !Top(a3);
    assert !Top(a4) && !Top(a5) && !Top(a6) && !Top(a7);
    assert a8 == s << 8;
    hide Top, Shl;
  }

  lemma UpdateIsEightSteps(s: bv32, c: Octet)
    ensures InTable(s, c)
    ensures Update(s, c) == T8(Add(s, Place(c)))
  {
    UpdateSum(s, c);
    hide *;
    var x := TableIndex(s, c);
    TableEntry(x);
    T8Linear(x << 24, s & 0xff_ffff);
    T8OfLowWord(s);
    AddLaws(T8(x << 24), s << 8);
  }

  lemma UpdateSum(s: bv32, c: Octet)
    ensures |CRCTAB| == 256 && Nat((s >> 24) ^ Word(c)) < 256 && InTable(s, c)
    ensures Update(s, c) == Add(s << 8, CRCTAB[Nat((s >> 24) ^ Word(c))])
  {
    IndexInTable(s, c);
    hide Word, Nat;
  }

  // ---- Both loops of the programs, over the register ----

  lemma FeedAppend(s: bv32, a: Bytes, b: Octet)
    ensures InTable(Feed(s, BitsOf(a)), b)
    ensures Feed(s, BitsOf(a + [b])) == Update(Feed(s, BitsOf(a)), b)
  {
    hide *;
    BitsOfConcat(a, [b]);
    BitsOfOne(b);
    FeedConcat(s, BitsOf(a), OctetBits(b));
    FeedOctet(Feed(s, BitsOf(a)), b);
    UpdateIsEightSteps(Feed(s, BitsOf(a)), b);
  }

  lemma BitsOfOne(b: Octet)
    ensures BitsOf([b]) == OctetBits(b)
  {
    hide OctetBits;
    assert BitsOf([b][1..]) == [];
  }

  /** What the register becomes when the length loop still has `n` to go. */
  function Rest(s: bv32, n: nat): bv32 {
    Feed(s, BitsOf(LengthOctets(n)))
  }

  lemma RestStep(s: bv32, n: nat)
    ensures n == 0 ==> Rest(s, n) == s
    ensures n > 0 ==> InTable(s, OctetOf(n % 256))
    ensures n > 0 ==> Rest(s, n) == Rest(Update(s, OctetOf(n % 256)), n / 256)
  {
    hide T8, Add, OctetBits, Update, T, Inject, Place;
    if n > 0 {
      var b := OctetOf(n % 256);
      var rest := LengthOctets(n / 256);
      assert LengthOctets(n) == [b] + rest;
      assert BitsOf([b] + rest) == OctetBits(b) + BitsOf(rest);
      FeedConcat(s, OctetBits(b), BitsOf(rest));
      FeedOctet(s, b);
      UpdateIsEightSteps(s, b);
    }
  }

  lemma RestOfData(data: Bytes)
    ensures Cksum(data) == Complement(Rest(Feed(0, BitsOf(data)), |data|))
  {
    hide BitsOf, Feed, Complement, LengthOctets;
    BitsOfConcat(data, LengthOctets(|data|));
    FeedConcat(0, BitsOf(data), BitsOf(LengthOctets(|data|)));
  }

  lemma NoBits()
    ensures Feed(0, BitsOf([])) == 0
    ensures Nat(0) == 0
  {
  }

  // ---- The C++ program: Client/cksum_new.cpp ----

  /** `memcrc` of the client. Its index `i` is a 32-bit int, hence the bound on the size. */
  method MemcrcClient(b: array<Octet>) returns (crc: bv32)
    requires b.Length < 0x8000_0000
    ensures crc == Cksum(b[..])
  {
    NoBits();
    hide *;
    var n: nat := b.Length;
    var s: bv32 := 0;
    assert b[..0] == [];
    for i := 0 to b.Length
      invariant s == Feed(0, BitsOf(b[..i]))
    {
      FeedAppend(0, b[..i], b[i]);
      assert b[..i + 1] == b[..i] + [b[i]];
      s := Update(s, b[i]);
    }
    assert b[..b.Length] == b[..];
    RestOfData(b[..]);
    while n != 0
      invariant Complement(Rest(s, n)) == Cksum(b[..])
    {
      RestStep(s, n);
      var c := OctetOf(n % 256);
      n := n / 256;
      s := Update(s, c);
    }
    RestStep(s, 0);
    crc := Complement(s);
  }

  // ---- The Python program: Server/cksum.py ----

  /** `^` on Python's unbounded natural numbers, octet by octet. */
  function XorInt(a: nat, b: nat): nat {
    if a == 0 && b == 0 then 0
    else 256 * XorInt(a / 256, b / 256) + Value(OctetOf(a % 256) ^ OctetOf(b % 256))
  }

  function XorOctet(x: Octet, y: Octet): Octet { x ^ y }

  lemma XorIntOctet(a: nat, b: nat, x: Octet, y: Octet)
    ensures XorInt(256 * a + Value(x), 256 * b + Value(y)) == 256 * XorInt(a, b) + Value(XorOctet(x, y))
  {
    hide *;
    LastDigit(a, Value(x));
    LastDigit(b, Value(y));
    XorDigits(256 * a + Value(x), 256 * b + Value(y), x, y);
  }

  lemma XorDigits(p: nat, q: nat, x: Octet, y: Octet)
    requires p % 256 == Value(x) && q % 256 == Value(y)
    ensures XorInt(p, q) == 256 * XorInt(p / 256, q / 256) + Value(XorOctet(x, y))
  {
    hide *;
    XorIntUnfold(p, q);
    OctetOfValue(x);
    OctetOfValue(y);
  }

  lemma LastDigit(a: nat, x: nat)
    requires x < 256
    ensures (256 * a + x) / 256 == a && (256 * a + x) % 256 == x
  {
  }

  lemma ZeroXor()
    ensures XorInt(0, 0) == 0
  {
  }

  lemma XorIntUnfold(a: nat, b: nat)
    ensures XorInt(a, b)
         == 256 * XorInt(a / 256, b / 256) + Value(XorOctet(OctetOf(a % 256), OctetOf(b % 256)))
  {
    hide Value, OctetOf;
    if a == 0 && b == 0 { XorOfZero(); }
  }

  lemma XorOfZero()
    ensures Value(XorOctet(OctetOf(0), OctetOf(0))) == 0
  {
  }

  lemma XorOctets(x3: Octet, x2: Octet, x1: Octet, x0: Octet, y3: Octet, y2: Octet, y1: Octet, y0: Octet)
    ensures XorInt(Number(Value(x3), Value(x2), Value(x1), Value(x0)),
                   Number(Value(y3), Value(y2), Value(y1), Value(y0)))
         == Number(Value(XorOctet(x3, y3)), Value(XorOctet(x2, y2)),
                   Value(XorOctet(x1, y1)), Value(XorOctet(x0, y0)))
  {
    ZeroXor();
    hide XorInt, Value, XorOctet;
    XorIntOctet(0, 0, x3, y3);
    XorIntOctet(Value(x3), Value(y3), x2, y2);
    XorIntOctet(256 * Value(x3) + Value(x2), 256 * Value(y3) + Value(y2), x1, y1);
    XorIntOctet(256 * (256 * Value(x3) + Value(x2)) + Value(x1),
                256 * (256 * Value(y3) + Value(y2)) + Value(y1), x0, y0);
  }

  /** On 32-bit values Python's `^` and the word operation agree. */
  lemma XorIntOfWords(x: bv32, y: bv32)
    ensures XorInt(Nat(x), Nat(y)) == Nat(Add(x, y))
  {
    OctetsOfSum(x, y);
    hide *;
    NatIsNumber(x);
    NatIsNumber(y);
    NatIsNumber(Add(x, y));
    XorOctets(Octet3(x), Octet2(x), Octet1(x), Octet0(x), Octet3(y), Octet2(y), Octet1(y), Octet0(y));
  }

  lemma OctetsOfSum(x: bv32, y: bv32)
    ensures Octet3(Add(x, y)) == XorOctet(Octet3(x), Octet3(y))
    ensures Octet2(Add(x, y)) == XorOctet(Octet2(x), Octet2(y))
    ensures Octet1(Add(x, y)) == XorOctet(Octet1(x), Octet1(y))
    ensures Octet0(Add(x, y)) == XorOctet(Octet0(x), Octet0(y))
  {
    OctetsOfXor(x, y);
    hide Octet0, Octet1, Octet2, Octet3;
  }

  lemma NatOfComplement(x: bv32)
    ensures Nat(Complement(x)) == 0xffff_ffff - Nat(x)
  {
    NatIsNumber(x);
    NatIsNumber(Complement(x));
    OctetsOfComplement(x);
    hide Nat, Octet0, Octet1, Octet2, Octet3, Complement, Value;
    ValueOfComplement(Octet3(x));
    ValueOfComplement(Octet2(x));
    ValueOfComplement(Octet1(x));
    ValueOfComplement(Octet0(x));
  }

  lemma OctetsOfComplement(x: bv32)
    ensures Octet3(Complement(x)) == !Octet3(x) && Octet2(Complement(x)) == !Octet2(x)
    ensures Octet1(Complement(x)) == !Octet1(x) && Octet0(Complement(x)) == !Octet0(x)
  {
  }

  lemma ValueOfComplement(b: Octet)
    ensures Value(!b) == 255 - Value(b)
  {
  }

  /** `s >> 24` and `(s << 8) & 0xffffffff` on integers. */
  lemma NatOfShifts(s: bv32)
    ensures Nat(s) / 0x100_0000 == Nat(s >> 24)
    ensures Nat(s) * 256 % 0x1_0000_0000 == Nat(s << 8)
  {
    hide *;
    OctetsOfShifts(s);
    NatIsNumber(s);
    NatIsNumber(s >> 24);
    NatIsNumber(s << 8);
    ShiftedNumber(Value(Octet3(s)), Value(Octet2(s)), Value(Octet1(s)), Value(Octet0(s)));
  }

  lemma OctetsOfShifts(s: bv32)
    ensures Octet3(s << 8) == Octet2(s) && Octet2(s << 8) == Octet1(s)
    ensures Octet1(s << 8) == Octet0(s) && Value(Octet0(s << 8)) == 0
    ensures Value(Octet3(s >> 24)) == Value(Octet2(s >> 24)) == Value(Octet1(s >> 24)) == 0
    ensures Octet0(s >> 24) == Octet3(s)
  {
  }

  lemma ShiftedNumber(x3: nat, x2: nat, x1: nat, x0: nat)
    requires x3 < 256 && x2 < 256 && x1 < 256 && x0 < 256
    ensures Number(x3, x2, x1, x0) / 0x100_0000 == Number(0, 0, 0, x3)
    ensures Number(x3, x2, x1, x0) * 256 % 0x1_0000_0000 == Number(x2, x1, x0, 0)
  {
    var low := 0x1_0000 * x2 + 0x100 * x1 + x0;
    assert Number(x3, x2, x1, x0) == 0x100_0000 * x3 + low && low < 0x100_0000;
    assert Number(x3, x2, x1, x0) * 256 == 0x1_0000_0000 * x3 + Number(x2, x1, x0, 0);
  }

  /** The update of the Python program, on integers. */
  function UpdateInt(s: nat, c: nat): nat
    requires XorInt(s / 0x100_0000, c) < |CRCTAB|
  {
    XorInt(s * 256 % 0x1_0000_0000, Nat(CRCTAB[XorInt(s / 0x100_0000, c)]))
  }

  /** On a register value the integer index stays in the table and the update is the same. */
  lemma UpdateIntIsUpdate(w: bv32, c: Octet)
    ensures |CRCTAB| == 256 && XorInt(Nat(w) / 0x100_0000, Value(c)) < 256
    ensures InTable(w, c)
    ensures UpdateInt(Nat(w), Value(c)) == Nat(Update(w, c))
  {
    hide Update, XorInt, CRCTAB, Nat, Value, Add, Octet0, Octet1, Octet2, Octet3, Word;
    UpdateSum(w, c);
    NatOfShifts(w);
    NatOfWord(c);
    XorIntOfWords(w >> 24, Word(c));
    AddIsXor(w >> 24, Word(c));
    XorIntOfWords(w << 8, CRCTAB[Nat((w >> 24) ^ Word(c))]);
  }

  lemma AddIsXor(a: bv32, b: bv32)
    ensures Add(a, b) == a ^ b
  {
  }

  /** `~s & 0xffffffff` on integers: `~s` is negative before it is masked. */
  function MaskedNot(s: int): int {
    (-s - 1) % 0x1_0000_0000
  }

  lemma MaskedComplement(w: bv32)
    ensures MaskedNot(Nat(w)) == Nat(Complement(w))
  {
    NatOfComplement(w);
    hide Nat, Complement;
  }

  /** `memcrc` of the server, on unbounded integers. */
  method MemcrcServer(b: Bytes) returns (crc: int)
    ensures crc == Nat(Cksum(b))
  {
    hide *;
    NoBits();
    ghost var w: bv32 := 0;
    var s: nat := 0;
    assert b[..0] == [];
    var i := 0;
    while i < |b|
      invariant 0 <= i <= |b| && s == Nat(w) && w == Feed(0, BitsOf(b[..i]))
    {
      w := ServerStep(w, b[i]);
      FeedAppend(0, b[..i], b[i]);
      assert b[..i + 1] == b[..i] + [b[i]];
      s := UpdateInt(s, Value(b[i]));
      i := i + 1;
    }
    assert b[..|b|] == b;
    RestOfData(b);
    crc := AppendLength(b, s, w);
  }

  lemma ServerStep(w: bv32, c: Octet) returns (w': bv32)
    ensures InTable(w, c) && w' == Update(w, c)
    ensures XorInt(Nat(w) / 0x100_0000, Value(c)) < 256 == |CRCTAB|
    ensures UpdateInt(Nat(w), Value(c)) == Nat(w')
  {
    hide *;
    UpdateIntIsUpdate(w, c);
    w' := Update(w, c);
  }

  /** The second loop of the server's `memcrc`. */
  method AppendLength(b: Bytes, s0: nat, ghost w0: bv32) returns (crc: int)
    requires s0 == Nat(w0) && Complement(Rest(w0, |b|)) == Cksum(b)
    ensures crc == Nat(Cksum(b))
  {
    hide *;
    var n: nat, s := |b|, s0;
    ghost var w := w0;
    while n != 0
      invariant s == Nat(w) && Complement(Rest(w, n)) == Cksum(b)
    {
      RestStep(w, n);
      var c := n % 256;
      ValueOfOctet(c);
      w := ServerStep(w, OctetOf(c));
      n := n / 256;
      s := UpdateInt(s, c);
    }
    RestStep(w, 0);
    MaskedComplement(w);
    crc := MaskedNot(s);
  }
}
