/** Divisibility facts about the order of x: 2^32 - 1 is the product of five Fermat primes. */
module NumberTheory {

  predicate Divides(d: int, n: int)
    requires d != 0
  {
    n % d == 0
  }

  function Gcd(a: nat, b: nat): nat
    decreases b
  {
    if b == 0 then a else Gcd(b, a % b)
  }

  /** The greatest common divisor is an integer combination of its arguments. */
  lemma {:induction false} Bezout(a: nat, b: nat) returns (u: int, v: int)
    ensures u * a + v * b == Gcd(a, b)
    decreases b
  {
    if b == 0 {
      u, v := 1, 0;
    } else {
      var s, t := Bezout(b, a % b);
      u, v := t, s - t * (a / b);
      assert a == b * (a / b) + a % b;
      assert t * a == t * (b * (a / b)) + t * (a % b);
      assert (s - t * (a / b)) * b == s * b - t * (a / b) * b;
      assert t * (b * (a / b)) == t * (a / b) * b;
    }
  }

  lemma ModOfMultiple(d: int, c: int)
    requires d > 0
    ensures (d * c) % d == 0
  {
    assert d * c == d * ((d * c) / d) + (d * c) % d;
    var q := c - (d * c) / d;
    assert (d * c) % d == d * q;
    ProductSize(d, q);
  }

  lemma ProductSize(d: int, q: int)
    requires d > 0
    ensures q >= 1 ==> d * q >= d
    ensures q <= 0 ==> d * q <= 0
    ensures q <= -1 ==> d * q <= -d
  {
  }

  lemma MultipleOf(d: int, n: int) returns (c: int)
    requires d > 0 && Divides(d, n)
    ensures n == d * c
  {
    c := n / d;
  }

  lemma {:induction false} GcdDivides(a: nat, b: nat)
    requires a > 0 || b > 0
    ensures Gcd(a, b) > 0
    ensures Divides(Gcd(a, b), a) && Divides(Gcd(a, b), b)
    decreases b
  {
    if b == 0 {
      ModOfMultiple(a, 1);
    } else {
      GcdDivides(b, a % b);
      var g := Gcd(a, b);
      var x := MultipleOf(g, b);
      var y := MultipleOf(g, a % b);
      assert a == b * (a / b) + a % b;
      assert g * x * (a / b) == g * (x * (a / b));
      assert a == g * (x * (a / b) + y);
      ModOfMultiple(g, x * (a / b) + y);
    }
  }

  ghost predicate IsPrime(p: nat) {
    p > 1 && forall d :: 1 < d < p ==> !Divides(d, p)
  }

  /** Euclid: a divisor of p * m that p does not divide is a divisor of m. */
  lemma PrimeFactor(g: nat, p: nat, m: nat)
    requires g > 0 && IsPrime(p) && Divides(g, p * m) && !Divides(p, g)
    ensures Divides(g, m)
  {
    var c := MultipleOf(g, p * m);
    GcdDivides(g, p);
    var e := Gcd(g, p);
    var x := MultipleOf(e, p);
    ProductSize(e, x);
    assert e == 1 || e == p;
    var u, v := Bezout(g, p);
    Combination(g, p, m, u, v, c);
    ModOfMultiple(g, u * m + v * c);
  }

  lemma Combination(g: int, p: int, m: int, u: int, v: int, c: int)
    requires u * g + v * p == 1 && p * m == g * c
    ensures m == g * (u * m + v * c)
  {
    assert m == (u * g + v * p) * m == u * g * m + v * (p * m);
    assert u * g * m == g * (u * m) && v * (g * c) == g * (v * c);
  }

  /** Two odd neighbours have no common factor, so a common multiple is a multiple of both. */
  lemma OddNeighbours(g: int, m: int)
    requires m > 0 && m % 2 == 1 && Divides(m, g) && Divides(m + 2, g)
    ensures Divides(m * (m + 2), g)
  {
    var t := (m + 1) / 2;
    var a := MultipleOf(m, g);
    var b := MultipleOf(m + 2, g);
    var n := m * (m + 2);
    assert g == (t * (m + 2) - (t + 1) * m) * g by {
      assert t * (m + 2) - (t + 1) * m == 2 * t - m == 1;
    }
    Regroup(g, m, t, a, b);
    ModOfMultiple(n, t * a - (t + 1) * b);
  }

  lemma Regroup(g: int, m: int, t: int, a: int, b: int)
    requires g == m * a && g == (m + 2) * b
    ensures (t * (m + 2) - (t + 1) * m) * g == m * (m + 2) * (t * a - (t + 1) * b)
  {
    assert t * (m + 2) * g == t * (m + 2) * (m * a) == m * (m + 2) * (t * a);
    assert (t + 1) * m * g == (t + 1) * m * ((m + 2) * b) == m * (m + 2) * ((t + 1) * b);
  }

  /** No number from 2 to `k` divides `n`. */
  predicate NoDivisorUpTo(n: nat, k: nat) {
    k < 2 || (!Divides(k, n) && NoDivisorUpTo(n, k - 1))
  }

  lemma {:induction false} NoDivisorAt(n: nat, k: nat, d: nat)
    requires 1 < d <= k && NoDivisorUpTo(n, k)
    ensures !Divides(d, n)
  {
    if d < k { NoDivisorAt(n, k - 1, d); }
  }

  /** Trial division up to the square root suffices. */
  lemma PrimeByTrial(p: nat, r: nat)
    requires 1 < r < p < (r + 1) * (r + 1) && NoDivisorUpTo(p, r)
    ensures IsPrime(p)
  {
    forall d | 1 < d < p ensures !Divides(d, p) {
      if d <= r {
        NoDivisorAt(p, r, d);
      } else if Divides(d, p) {
        var e := MultipleOf(d, p);
        SmallCofactor(p, r, d, e);
        NoDivisorAt(p, r, e);
      }
    }
  }

  lemma SmallCofactor(p: nat, r: nat, d: nat, e: int)
    requires 0 < r < d < p < (r + 1) * (r + 1) && p == d * e
    ensures 1 < e <= r && Divides(e, p)
  {
    ProductSize(d, e);
    LargeProduct(r + 1, d, e);
    ModOfMultiple(e, d);
  }

  lemma LargeProduct(b: nat, c: nat, d: nat)
    requires b <= c
    ensures d >= b ==> c * d >= b * b
  {
    if d >= b {
      var x, y := c - b, d - b;
      assert c * d == b * b + b * y + x * d;
      NonNegative(b, y);
      NonNegative(x, d);
    }
  }

  lemma NonNegative(a: nat, b: nat)
    ensures a * b >= 0
  {
  }

  lemma FermatPrimes()
    ensures IsPrime(3) && IsPrime(5) && IsPrime(17) && IsPrime(257) && IsPrime(65537)
  {
    assert NoDivisorUpTo(257, 16);
    PrimeByTrial(3, 2);
    PrimeByTrial(5, 2);
    PrimeByTrial(17, 4);
    PrimeByTrial(257, 16);
    Trial65537();
    PrimeByTrial(65537, 256);
  }

  /** Fifteen divisors at a time, as far as the verifier evaluates in one step. */
  lemma Trial65537()
    ensures NoDivisorUpTo(65537, 256)
  {
    assert NoDivisorUpTo(65537, 16);
    assert NoDivisorUpTo(65537, 31);
    assert NoDivisorUpTo(65537, 46);
    assert NoDivisorUpTo(65537, 61);
    assert NoDivisorUpTo(65537, 76);
    assert NoDivisorUpTo(65537, 91);
    assert NoDivisorUpTo(65537, 106);
    assert NoDivisorUpTo(65537, 121);
    assert NoDivisorUpTo(65537, 136);
    assert NoDivisorUpTo(65537, 151);
    assert NoDivisorUpTo(65537, 166);
    assert NoDivisorUpTo(65537, 181);
    assert NoDivisorUpTo(65537, 196);
    assert NoDivisorUpTo(65537, 211);
    assert NoDivisorUpTo(65537, 226);
    assert NoDivisorUpTo(65537, 241);
  }
}
