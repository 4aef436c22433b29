/** Polynomial division over GF(2), on coefficient strings, and the proof that the register
    computes the remainder. */
module Division {
  import opened BitStrings
  import opened Register

  /** The 33 coefficients of the CRC generator, the leading one first. */
  function Generator(): (g: Bits)
    ensures |g| == 33 && g[0]
  {
    [true] + TopBits(POLY, 32)
  }

  /** The product of the polynomial `q` and the generator, by shift and add. */
  function TimesGenerator(q: Bits): (p: Bits)
    ensures |p| == |q| + 32
  {
    if q == [] then Zeros(32)
    else
      Xor(if q[0] then Generator() + Zeros(|q| - 1) else Zeros(|q| + 32),
          [false] + TimesGenerator(q[1..]))
  }

  /** `dividend` is `q` times the generator plus `r`, with `r` of degree below 32. */
  predicate Divides(dividend: Bits, q: Bits, r: Bits) {
    && |dividend| == |q| + 32 && |r| == 32
    && Xor(dividend, TimesGenerator(q)) == Zeros(|q|) + r
  }

  ghost predicate IsRemainder(dividend: Bits, r: Bits) {
    exists q: Bits :: Divides(dividend, q, r)
  }

  /** The coefficients held in the register. */
  function Contents(s: bv32): (bits: Bits)
    ensures |bits| == 32
  {
    TopBits(s, 32)
  }

  lemma {:induction false} TopBitsAdd(a: bv32, b: bv32, n: nat)
    ensures TopBits(Add(a, b), n) == Xor(TopBits(a, n), TopBits(b, n))
    decreases n
  {
    hide Add, Shl, Top;
    if n > 0 {
      TopAdd(a, b);
      ShlAdd(a, b);
      TopBitsAdd(Shl(a), Shl(b), n - 1);
    }
  }

  lemma {:induction false} TopBitsSplit(w: bv32, m: nat, n: nat)
    ensures TopBits(w, m + n) == TopBits(w, m) + TopBits(ShlBy(w, m), n)
    decreases m
  {
    hide Shl, Top;
    if m > 0 { TopBitsSplit(Shl(w), m - 1, n); }
  }

  lemma ContentsShl(s: bv32)
    ensures Contents(s)[0] == Top(s)
    ensures Contents(Shl(s)) == Contents(s)[1..] + [false]
  {
    hide Shl, Top, ShlBy;
    assert TopBits(s, 33) == [Top(s)] + Contents(Shl(s));
    TopBitsSplit(s, 32, 1);
    ShlBy32(s);
    TopBitsOfZero(1);
    hide TopBits, Zeros;
    assert Zeros(1) == [false];
    Rotate(Top(s), Contents(Shl(s)), Contents(s), false);
  }

  lemma Rotate(x: bool, a: Bits, b: Bits, y: bool)
    requires [x] + a == b + [y] && |b| > 0
    ensures b[0] == x && a == b[1..] + [y]
  {
    assert ([x] + a)[0] == (b + [y])[0];
    assert a == ([x] + a)[1..];
    assert b[1..] + [y] == (b + [y])[1..];
  }

  /** The register after one more bit: the leading coefficient is divided out. */
  lemma StepContents(s: bv32, bit: bool)
    ensures var h := Top(s) != bit;
            T(Inject(s, bit)) == if h then Add(Shl(s), POLY) else Shl(s)
  {
    TopOfTop();
    hide Shl, Top, Add;
    if bit {
      TopAdd(s, TOP);
      ShlAdd(s, TOP);
      AddLaws(Shl(s), 0);
    }
  }

  function Pending(s: bv32, m: Bits): (v: Bits)
    ensures |v| == |m| + 32
  {
    Xor(Contents(s) + Zeros(|m|), m + Zeros(32))
  }

  /** What is left to divide after the leading coefficient of `Pending(s, m)` is divided out. */
  lemma PendingStep(s: bv32, m: Bits)
    requires m != []
    ensures var h := Top(s) != m[0];
            Xor(Pending(s, m), LeadingTerm(h, |m| - 1)) == [false] + Pending(T(Inject(s, m[0])), m[1..])
  {
    hide Shl, Top, Add, T, Inject, TopBits, Xor, Zeros;
    StepContents(s, m[0]);
    ContentsShl(s);
    TopBitsAdd(Shl(s), POLY, 32);
    EliminateLeading(Contents(s), Contents(T(Inject(s, m[0]))), m);
  }

  /** The generator aligned with the leading coefficient, if that coefficient is one. */
  function LeadingTerm(h: bool, n: nat): (t: Bits)
    ensures |t| == n + 33
  {
    if h then Generator() + Zeros(n) else Zeros(n + 33)
  }

  lemma EliminateLeading(c: Bits, c': Bits, m: Bits)
    requires |c| == |c'| == 32 && m != []
    requires var h := c[0] != m[0];
             c' == if h then Xor(c[1..] + [false], TopBits(POLY, 32)) else c[1..] + [false]
    ensures var h := c[0] != m[0];
            Xor(Xor(c + Zeros(|m|), m + Zeros(32)), LeadingTerm(h, |m| - 1))
            == [false] + Xor(c' + Zeros(|m| - 1), m[1..] + Zeros(32))
  {
    hide Xor, Zeros, TopBits;
    var h, n := c[0] != m[0], |m| - 1;
    var p, lead := Xor(c + Zeros(n + 1), m + Zeros(32)), LeadingTerm(h, n);
    var p' := Xor(c' + Zeros(n), m[1..] + Zeros(32));
    var g := TopBits(POLY, 32);
    assert p[0] == h && lead[0] == h;
    forall i | 0 <= i < n + 32 ensures Xor(p, lead)[i + 1] == p'[i] {
      assert (m + Zeros(32))[i + 1] == (m[1..] + Zeros(32))[i];
      assert lead[i + 1] == (h && i < 32 && g[i]);
      assert (c + Zeros(n + 1))[i + 1] == (i < 31 && c[i + 1]);
      assert (c' + Zeros(n))[i] == (i < 32 && ((i < 31 && c[i + 1]) != (h && g[i])));
    }
    assert Xor(p, lead) == [false] + p';
  }

  /** Feeding a message divides it, with 32 zero bits after it, by the generator. */
  lemma {:induction false} FeedDivides(s: bv32, m: Bits) returns (q: Bits)
    ensures |q| == |m|
    ensures Xor(Pending(s, m), TimesGenerator(q)) == Zeros(|m|) + Contents(Feed(s, m))
    decreases |m|
  {
    if m == [] {
      q := [];
      NothingPending(s);
    } else {
      hide *;
      var s' := T(Inject(s, m[0]));
      var h := Top(s) != m[0];
      var q' := FeedDivides(s', m[1..]);
      q := [h] + q';
      PendingStep(s, m);
      TimesGeneratorCons(h, q');
      Subtract(Pending(s, m), LeadingTerm(h, |m| - 1), Pending(s', m[1..]), TimesGenerator(q'));
      ZerosCons(|m| - 1, Contents(Feed(s', m[1..])));
      FeedCons(s, m);
    }
  }

  lemma NothingPending(s: bv32)
    ensures Xor(Pending(s, []), TimesGenerator([])) == Zeros(0) + Contents(Feed(s, []))
  {
    hide Contents;
  }

  lemma FeedCons(s: bv32, m: Bits)
    requires m != []
    ensures Feed(s, m) == Feed(T(Inject(s, m[0])), m[1..])
  {
    hide T, Inject;
  }

  lemma ZerosCons(n: nat, r: Bits)
    ensures [false] + (Zeros(n) + r) == Zeros(n + 1) + r
  {
    assert Zeros(n + 1) == [false] + Zeros(n);
  }

  lemma TimesGeneratorCons(h: bool, q: Bits)
    ensures TimesGenerator([h] + q) == Xor(LeadingTerm(h, |q|), [false] + TimesGenerator(q))
  {
    hide Generator, Xor, Zeros;
    assert ([h] + q)[1..] == q;
  }

  lemma Subtract(p: Bits, lead: Bits, p': Bits, t: Bits)
    requires |p| == |lead| == |p'| + 1 == |t| + 1
    requires Xor(p, lead) == [false] + p'
    ensures Xor(p, Xor(lead, [false] + t)) == [false] + Xor(p', t)
  {
    hide Xor;
    var left, right := Xor(p, Xor(lead, [false] + t)), [false] + Xor(p', t);
    forall i | 0 <= i < |p| ensures left[i] == right[i] {
      assert Xor(p, lead)[i] == ([false] + p')[i];
    }
  }

  /** The register, started at zero, ends with the remainder of the message times x^32. */
  lemma RegisterIsRemainder(m: Bits)
    ensures IsRemainder(m + Zeros(32), Contents(Feed(0, m)))
  {
    var q := FeedDivides(0, m);
    NothingHeld(m);
    hide Feed, Contents, TimesGenerator, Pending, Xor, Zeros;
    assert Divides(m + Zeros(32), q, Contents(Feed(0, m)));
  }

  lemma NothingHeld(m: Bits)
    ensures Pending(0, m) == m + Zeros(32)
  {
    TopBitsOfZero(32);
    hide TopBits;
  }

  /** The generator times one coefficient, `n - 1` degrees up. */
  function LeadingMultiple(bit: bool, n: nat): (p: Bits)
    requires n > 0
    ensures |p| == n + 32
  {
    if bit then Generator() + Zeros(n - 1) else Zeros(n + 32)
  }

  lemma TimesGeneratorUnfold(q: Bits)
    requires q != []
    ensures TimesGenerator(q) == Xor(LeadingMultiple(q[0], |q|), [false] + TimesGenerator(q[1..]))
  {
    hide Generator;
  }

  lemma LeadingTermAdd(x: bool, y: bool, n: nat)
    requires n > 0
    ensures LeadingMultiple(x != y, n) == Xor(LeadingMultiple(x, n), LeadingMultiple(y, n))
  {
    hide Generator;
  }

  lemma XorSwap(a: Bits, b: Bits, c: Bits, d: Bits)
    requires |a| == |b| == |c| == |d|
    ensures Xor(Xor(a, c), Xor(b, d)) == Xor(Xor(a, b), Xor(c, d))
  {
  }

  lemma {:induction false} TimesGeneratorAdd(a: Bits, b: Bits)
    requires |a| == |b|
    ensures TimesGenerator(Xor(a, b)) == Xor(TimesGenerator(a), TimesGenerator(b))
  {
    if a != [] {
      assert Xor(a, b)[1..] == Xor(a[1..], b[1..]);
      TimesGeneratorAdd(a[1..], b[1..]);
      hide Generator;
      LeadingTermAdd(a[0], b[0], |a|);
      var p, q := TimesGenerator(a[1..]), TimesGenerator(b[1..]);
      var x, y := LeadingMultiple(a[0], |a|), LeadingMultiple(b[0], |b|);
      XorConcat([false], p, [false], q);
      XorSwap(x, [false] + p, y, [false] + q);
      TimesGeneratorUnfold(a);
      TimesGeneratorUnfold(b);
      TimesGeneratorUnfold(Xor(a, b));
    }
  }

  /** A multiple of the generator with no coefficient above degree 31 is zero. */
  lemma {:induction false} SmallMultipleIsZero(q: Bits)
    requires TimesGenerator(q)[..|q|] == Zeros(|q|)
    ensures q == Zeros(|q|)
  {
    hide Generator;
    if q != [] {
      var p := TimesGenerator(q);
      assert !p[..|q|][0];
      assert p[0] == q[0];
      var p' := TimesGenerator(q[1..]);
      forall i | 0 <= i < |q| - 1 ensures !p'[i] {
        assert !p[..|q|][i + 1];
        assert p[i + 1] == p'[i];
      }
      assert p'[..|q| - 1] == Zeros(|q| - 1);
      SmallMultipleIsZero(q[1..]);
      assert q == [q[0]] + q[1..];
    }
  }

  /** Division by the generator has exactly one remainder. */
  lemma RemainderUnique(dividend: Bits, r: Bits, r': Bits)
    requires IsRemainder(dividend, r) && IsRemainder(dividend, r')
    ensures r == r'
  {
    hide Generator, TimesGenerator;
    var q: Bits :| Divides(dividend, q, r);
    var q': Bits :| Divides(dividend, q', r');
    var n := |q|;
    var a, b := TimesGenerator(q), TimesGenerator(q');
    TimesGeneratorAdd(q, q');
    forall i | 0 <= i < n ensures a[i] == b[i] {
      assert (Zeros(n) + r)[i] == (Zeros(n) + r')[i];
    }
    assert TimesGenerator(Xor(q, q'))[..n] == Zeros(n);
    SmallMultipleIsZero(Xor(q, q'));
    forall i | 0 <= i < n ensures q[i] == q'[i] {
      assert Xor(q, q')[i] == Zeros(n)[i];
    }
    assert q == q';
    assert Zeros(n) + r == Zeros(n) + r';
    assert r == (Zeros(n) + r)[n..] && r' == (Zeros(n) + r')[n..];
  }
}
