/** The 32-bit CRC register as a machine that takes one message bit at a time.

    Words are elements of GF(2)[x] of degree below 32. The bit-vector operations are named here
    and hidden in the algebraic proofs, which use only the laws stated about them. */
module Register {
  import opened Octets
  import opened BitStrings

  const POLY: bv32 := 0x04c11db7
  const TOP: bv32 := 0x8000_0000

  function Add(a: bv32, b: bv32): bv32 { a ^ b }

  function Shl(a: bv32): bv32 { a << 1 }

  predicate Top(a: bv32) { a >> 31 == 1 }

  /** Multiplication by x modulo the generator polynomial. */
  function T(s: bv32): bv32 {
    if Top(s) then Add(Shl(s), POLY) else Shl(s)
  }

  function T8(s: bv32): bv32 {
    T(T(T(T(T(T(T(T(s))))))))
  }

  function Iter(n: nat, s: bv32): bv32 {
    if n == 0 then s else T(Iter(n - 1, s))
  }

  /** Adds a message bit to the top of the register. */
  function Inject(s: bv32, bit: bool): bv32 {
    if bit then Add(s, TOP) else s
  }

  /** An octet moved to the top of a word. */
  function Place(b: Octet): bv32 { Word(b) << 24 }

  /** Runs the register over a bit string. */
  function Feed(s: bv32, m: Bits): bv32
    decreases |m|
  {
    if m == [] then s else Feed(T(Inject(s, m[0])), m[1..])
  }

  /** The `n` uppermost bits of a word. */
  function TopBits(w: bv32, n: nat): (bits: Bits)
    ensures |bits| == n
    decreases n
  {
    if n == 0 then [] else [Top(w)] + TopBits(Shl(w), n - 1)
  }

  function ShlBy(w: bv32, n: nat): bv32
    decreases n
  {
    if n == 0 then w else ShlBy(Shl(w), n - 1)
  }

  // ---- Laws of the word operations ----

  lemma AddAssoc(a: bv32, b: bv32, c: bv32)
    ensures Add(a, Add(b, c)) == Add(Add(a, b), c)
  {
  }

  lemma AddLaws(a: bv32, b: bv32)
    ensures Add(a, b) == Add(b, a)
    ensures Add(a, a) == 0
    ensures Add(a, 0) == a && Add(0, a) == a
  {
  }

  lemma AddSwap(a: bv32, b: bv32, c: bv32, d: bv32)
    ensures Add(Add(a, b), Add(c, d)) == Add(Add(a, c), Add(b, d))
  {
    hide Add;
    AddAssoc(Add(a, b), c, d);
    AddAssoc(a, b, c);
    AddLaws(b, c);
    AddAssoc(a, c, b);
    AddAssoc(Add(a, c), b, d);
  }

  lemma AddCancel(a: bv32, b: bv32)
    ensures Add(Add(a, b), b) == a
    ensures Add(a, b) == 0 ==> a == b
  {
    hide Add;
    AddAssoc(a, b, b);
    AddLaws(b, b);
    AddLaws(a, 0);
    AddLaws(b, a);
  }

  lemma ShlAdd(a: bv32, b: bv32)
    ensures Shl(Add(a, b)) == Add(Shl(a), Shl(b))
  {
  }

  lemma TopAdd(a: bv32, b: bv32)
    ensures Top(Add(a, b)) == (Top(a) != Top(b))
  {
  }

  lemma TopOfTop()
    ensures Top(TOP) && Shl(TOP) == 0 && !Top(0) && Shl(0) == 0
  {
  }

  /** Taking the top bit off a word leaves a word that steps by a plain shift. */
  lemma SplitTop(w: bv32) returns (low: bv32)
    ensures !Top(low) && Shl(low) == Shl(w)
    ensures w == if Top(w) then Add(low, TOP) else low
  {
    hide Add, Shl, Top;
    low := LowBits(w);
    LowTop(w);
    LowShl(w);
    LowAndTop(w);
  }

  function LowBits(w: bv32): bv32 { w & 0x7fff_ffff }

  lemma LowTop(w: bv32)
    ensures !Top(LowBits(w))
  {
  }

  lemma LowShl(w: bv32)
    ensures Shl(LowBits(w)) == Shl(w)
  {
  }

  lemma LowAndTop(w: bv32)
    ensures Top(w) ==> w == Add(LowBits(w), TOP)
    ensures !Top(w) ==> w == LowBits(w)
  {
  }

  lemma ShlChain(w: bv32)
    returns (a1: bv32, a2: bv32, a3: bv32, a4: bv32, a5: bv32, a6: bv32, a7: bv32, a8: bv32)
    ensures a1 == Shl(w) && a2 == Shl(a1) && a3 == Shl(a2) && a4 == Shl(a3)
    ensures a5 == Shl(a4) && a6 == Shl(a5) && a7 == Shl(a6) && a8 == Shl(a7)
    ensures a1 == w << 1 && a2 == w << 2 && a3 == w << 3 && a4 == w << 4
    ensures a5 == w << 5 && a6 == w << 6 && a7 == w << 7 && a8 == w << 8
  {
    a1, a2, a3, a4, a5, a6, a7, a8 := w << 1, w << 2, w << 3, w << 4, w << 5, w << 6, w << 7, w << 8;
  }

  lemma ShlBy8(w: bv32) returns (s7: bv32, s8: bv32)
    ensures s7 == ShlBy(w, 7) == w << 7
    ensures s8 == ShlBy(w, 8) == w << 8
  {
    var a1, a2, a3, a4, a5, a6, a7, a8 := ShlChain(w);
    s7, s8 := a7, a8;
    hide Shl;
    assert ShlBy(a6, 1) == a7 && ShlBy(a6, 2) == a8;
    assert ShlBy(a5, 2) == a7 && ShlBy(a4, 3) == a7 && ShlBy(a3, 4) == a7 && ShlBy(a2, 5) == a7;
    assert ShlBy(a5, 3) == a8 && ShlBy(a4, 4) == a8 && ShlBy(a3, 5) == a8 && ShlBy(a2, 6) == a8;
    assert ShlBy(a1, 6) == a7 && ShlBy(a1, 7) == a8;
  }

  lemma {:induction false} ShlBySplit(w: bv32, m: nat, n: nat)
    ensures ShlBy(w, m + n) == ShlBy(ShlBy(w, m), n)
    decreases m
  {
    hide Shl;
    if m > 0 { ShlBySplit(Shl(w), m - 1, n); }
  }

  // ---- The step is a linear bijection ----

  lemma TLinear(a: bv32, b: bv32)
    ensures T(Add(a, b)) == Add(T(a), T(b))
  {
    hide Add, Shl, Top;
    TopAdd(a, b);
    ShlAdd(a, b);
    if Top(a) && Top(b) {
      AddSwap(Shl(a), POLY, Shl(b), POLY);
      AddLaws(POLY, POLY);
      AddLaws(Add(Shl(a), Shl(b)), 0);
    } else if Top(a) {
      AddSwap(Shl(a), Shl(b), POLY, 0);
      AddLaws(POLY, 0);
      AddLaws(Shl(b), 0);
    } else if Top(b) {
      AddAssoc(Shl(a), Shl(b), POLY);
    }
  }

  lemma TZero(a: bv32)
    ensures T(a) == 0 <==> a == 0
  {
  }

  lemma TInjective(a: bv32, b: bv32)
    requires T(a) == T(b)
    ensures a == b
  {
    hide Add, T;
    TLinear(a, b);
    AddLaws(T(a), T(b));
    TZero(Add(a, b));
    AddCancel(a, b);
  }

  lemma {:induction false} IterLinear(n: nat, a: bv32, b: bv32)
    ensures Iter(n, Add(a, b)) == Add(Iter(n, a), Iter(n, b))
  {
    hide T, Add;
    if n > 0 {
      IterLinear(n - 1, a, b);
      TLinear(Iter(n - 1, a), Iter(n - 1, b));
    }
  }

  lemma {:induction false} IterZero(n: nat, a: bv32)
    ensures Iter(n, a) == 0 <==> a == 0
  {
    hide T;
    if n > 0 {
      IterZero(n - 1, a);
      TZero(Iter(n - 1, a));
    }
  }

  lemma {:induction false} IterInjective(n: nat, a: bv32, b: bv32)
    requires Iter(n, a) == Iter(n, b)
    ensures a == b
  {
    hide T;
    if n > 0 {
      TInjective(Iter(n - 1, a), Iter(n - 1, b));
      IterInjective(n - 1, a, b);
    }
  }

  lemma {:induction false} IterAdd(m: nat, n: nat, s: bv32)
    ensures Iter(m + n, s) == Iter(m, Iter(n, s))
  {
    hide T;
    if m > 0 { IterAdd(m - 1, n, s); }
  }

  lemma T8IsIter(s: bv32)
    ensures T8(s) == Iter(8, s)
  {
    hide T;
    assert Iter(1, s) == T(s);
    assert Iter(2, s) == T(T(s));
    assert Iter(4, s) == T(T(Iter(2, s)));
    assert Iter(6, s) == T(T(Iter(4, s)));
  }

  lemma T8Linear(a: bv32, b: bv32)
    ensures T8(Add(a, b)) == Add(T8(a), T8(b))
  {
    hide T8, Iter, Add;
    T8IsIter(a);
    T8IsIter(b);
    T8IsIter(Add(a, b));
    IterLinear(8, a, b);
  }

  // ---- Feeding bit strings ----

  lemma {:induction false} FeedConcat(s: bv32, a: Bits, b: Bits)
    ensures Feed(s, a + b) == Feed(Feed(s, a), b)
    decreases |a|
  {
    hide T, Inject;
    if a == [] {
      assert a + b == b;
    } else {
      assert (a + b)[1..] == a[1..] + b;
      FeedConcat(T(Inject(s, a[0])), a[1..], b);
    }
  }

  lemma InjectLinear(s: bv32, t: bv32, x: bool, y: bool)
    ensures Inject(Add(s, t), x != y) == Add(Inject(s, x), Inject(t, y))
  {
    hide Add;
    if x && y {
      AddSwap(s, TOP, t, TOP);
      AddLaws(TOP, TOP);
      AddLaws(Add(s, t), 0);
    } else if x {
      AddSwap(s, t, TOP, 0);
      AddLaws(TOP, 0);
      AddLaws(t, 0);
    } else if y {
      AddAssoc(s, t, TOP);
    }
  }

  /** The register is linear in its start value and in the message together. */
  lemma {:induction false} FeedLinear(s: bv32, t: bv32, a: Bits, b: Bits)
    requires |a| == |b|
    ensures Feed(Add(s, t), Xor(a, b)) == Add(Feed(s, a), Feed(t, b))
    decreases |a|
  {
    hide T, Inject, Add;
    if a != [] {
      var s', t' := Inject(s, a[0]), Inject(t, b[0]);
      InjectLinear(s, t, a[0], b[0]);
      TLinear(s', t');
      assert Xor(a, b)[1..] == Xor(a[1..], b[1..]);
      FeedLinear(T(s'), T(t'), a[1..], b[1..]);
    }
  }

  lemma {:induction false} FeedZeros(s: bv32, n: nat)
    ensures Feed(s, Zeros(n)) == Iter(n, s)
  {
    hide T;
    if n > 0 {
      assert Zeros(n) == Zeros(n - 1) + [false];
      FeedConcat(s, Zeros(n - 1), [false]);
      FeedZeros(s, n - 1);
      assert Feed(Iter(n - 1, s), [false]) == T(Iter(n - 1, s));
    }
  }

  /** Bits held aligned at the top of a word `w` may be added to the register all at once. */
  lemma {:induction false} FeedWord(s: bv32, w: bv32, n: nat)
    ensures Add(Feed(s, TopBits(w, n)), ShlBy(w, n)) == Iter(n, Add(s, w))
    decreases n
  {
    hide T, Add, Shl, Top, Inject;
    if n > 0 {
      var bits := TopBits(w, n);
      assert bits[1..] == TopBits(Shl(w), n - 1);
      var s' := T(Inject(s, Top(w)));
      FeedWord(s', Shl(w), n - 1);
      StepWord(s, w);
      IterAdd(n - 1, 1, Add(s, w));
      assert Iter(1, Add(s, w)) == T(Iter(0, Add(s, w)));
    }
  }

  lemma StepWord(s: bv32, w: bv32)
    ensures T(Add(s, w)) == Add(T(Inject(s, Top(w))), Shl(w))
  {
    hide Add, Shl, Top;
    var low := SplitTop(w);
    if Top(w) {
      AddLaws(low, TOP);
      AddAssoc(s, TOP, low);
    }
    TLinear(Inject(s, Top(w)), low);
  }

  /** Each short bit string is the top of a word whose other bits are zero. */
  lemma {:induction false} WordOf(m: Bits) returns (w: bv32)
    requires |m| <= 32
    ensures TopBits(w, |m|) == m && ShlBy(w, |m|) == 0
    decreases |m|
  {
    if m == [] {
      w := 0;
    } else {
      var t := WordOf(m[1..]);
      LowBitClear(t, |m| - 1);
      w := PrependBit(m[0], t);
      assert m == [m[0]] + m[1..];
    }
  }

  lemma PrependBit(bit: bool, t: bv32) returns (w: bv32)
    requires t & 1 == 0
    ensures Top(w) == bit && Shl(w) == t
  {
    hide Top, Shl;
    PrependZero(t);
    PrependOne(t);
    w := if bit then (t >> 1) | TOP else t >> 1;
  }

  lemma PrependZero(t: bv32)
    requires t & 1 == 0
    ensures !Top(t >> 1) && Shl(t >> 1) == t
  {
  }

  lemma PrependOne(t: bv32)
    requires t & 1 == 0
    ensures Top((t >> 1) | TOP) && Shl((t >> 1) | TOP) == t
  {
  }

  lemma LowBitClear(t: bv32, n: nat)
    requires ShlBy(t, n) == 0 && n <= 31
    ensures t & 1 == 0
  {
    ShlBySplit(t, n, 31 - n);
    ShlByOfZero(31 - n);
    ShlBySplit(t, 24, 7);
    ShlBySplit(t, 16, 8);
    ShlBySplit(t, 8, 8);
    var _, t8 := ShlBy8(t);
    var _, t16 := ShlBy8(t8);
    var _, t24 := ShlBy8(t16);
    var t31, _ := ShlBy8(t24);
    hide ShlBy;
    assert t31 == 0;
    LowBitShifted(t, t8, t16, t24);
  }

  lemma LowBitShifted(t: bv32, t8: bv32, t16: bv32, t24: bv32)
    requires t8 == t << 8 && t16 == t8 << 8 && t24 == t16 << 8 && t24 << 7 == 0
    ensures t & 1 == 0
  {
  }

  lemma {:induction false} ShlByOfZero(n: nat)
    ensures ShlBy(0, n) == 0
  {
    if n > 0 {
      TopOfTop();
      ShlByOfZero(n - 1);
    }
  }

  /** One octet is eight bits: add it at the top and step eight times. */
  lemma FeedOctet(s: bv32, b: Octet)
    ensures Feed(s, OctetBits(b)) == T8(Add(s, Place(b)))
  {
    hide T, T8, Add, OctetBits, Place;
    var w := Place(b);
    OctetIsTopBits(b);
    FeedWord(s, w, 8);
    AddLaws(Feed(s, OctetBits(b)), 0);
    T8IsIter(Add(s, w));
  }

  lemma OctetIsTopBits(b: Octet)
    ensures TopBits(Place(b), 8) == OctetBits(b)
    ensures ShlBy(Place(b), 8) == 0
  {
    hide Top, Shl, OctetBits, TopBits, ShlBy, Place;
    var w, a1, a2, a3, a4, a5, a6, a7 := OctetChain(b);
    TopBits4(w, a1, a2, a3, 4);
    TopBits4(a4, a5, a6, a7, 0);
    EmptyTop(0);
  }

  lemma EmptyTop(w: bv32)
    ensures TopBits(w, 0) == [] && ShlBy(w, 0) == w
  {
  }

  lemma TopBits4(w: bv32, a1: bv32, a2: bv32, a3: bv32, n: nat)
    requires a1 == Shl(w) && a2 == Shl(a1) && a3 == Shl(a2)
    ensures TopBits(w, n + 4) == [Top(w), Top(a1), Top(a2), Top(a3)] + TopBits(Shl(a3), n)
    ensures ShlBy(w, n + 4) == ShlBy(Shl(a3), n)
  {
    hide Top, Shl;
    TopBits2(w, a1, n + 2);
    TopBits2(a2, a3, n);
  }

  lemma TopBits2(w: bv32, a1: bv32, n: nat)
    requires a1 == Shl(w)
    ensures TopBits(w, n + 2) == [Top(w), Top(a1)] + TopBits(Shl(a1), n)
    ensures ShlBy(w, n + 2) == ShlBy(Shl(a1), n)
  {
    hide Top, Shl;
    assert TopBits(w, n + 2) == [Top(w)] + TopBits(a1, n + 1);
    assert ShlBy(w, n + 2) == ShlBy(a1, n + 1);
  }

  lemma OctetChain(b: Octet)
    returns (w: bv32, a1: bv32, a2: bv32, a3: bv32, a4: bv32, a5: bv32, a6: bv32, a7: bv32)
    ensures w == Place(b)
    ensures a1 == Shl(w) && a2 == Shl(a1) && a3 == Shl(a2) && a4 == Shl(a3)
    ensures a5 == Shl(a4) && a6 == Shl(a5) && a7 == Shl(a6) && Shl(a7) == 0
    ensures OctetBits(b) == [Top(w), Top(a1), Top(a2), Top(a3), Top(a4), Top(a5), Top(a6), Top(a7)]
  {
    w := Place(b);
    var a8;
    a1, a2, a3, a4, a5, a6, a7, a8 := ShlChain(w);
    OctetTops(b);
    assert a8 == 0;
    hide Top, Shl, OctetBits;
  }

  lemma OctetTops(b: Octet)
    ensures var w := Place(b);
            OctetBits(b) == [Top(w), Top(w << 1), Top(w << 2), Top(w << 3),
                             Top(w << 4), Top(w << 5), Top(w << 6), Top(w << 7)]
  {
  }

  lemma {:induction false} TopBitsOfZero(n: nat)
    ensures TopBits(0, n) == Zeros(n)
  {
    TopOfTop();
    hide Shl, Top;
    if n > 0 { TopBitsOfZero(n - 1); }
  }

  lemma ShlBy32(w: bv32)
    ensures ShlBy(w, 32) == 0
  {
    hide *;
    var _, a := ShlBy8(w);
    var _, b := ShlBy8(a);
    var _, c := ShlBy8(b);
    var _, d := ShlBy8(c);
    ShlBySplit(w, 8, 24);
    ShlBySplit(a, 8, 16);
    ShlBySplit(b, 8, 8);
    ShiftedOut(w, a, b, c, d);
  }

  lemma ShiftedOut(w: bv32, a: bv32, b: bv32, c: bv32, d: bv32)
    requires a == w << 8 && b == a << 8 && c == b << 8 && d == c << 8
    ensures d == 0
  {
  }
}
