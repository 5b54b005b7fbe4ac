/** Integer arithmetic behind the key operations: congruences, powers, extended
    gcd, primes and Fermat's little theorem. */
module Arithmetic {

  // ---------------------------------------------------------------- division

  /** A non-zero multiple of d is at least d in absolute value. */
  lemma NonzeroMultiple(d: int, x: int)
    requires 0 < d && x != 0
    ensures d * x >= d || d * x <= -d
  {
    if x >= 1 {
      assert d * (x - 1) >= 0;
      assert d * x == d + d * (x - 1);
    } else {
      assert d * (-x - 1) >= 0;
      assert d * x == -d - d * (-x - 1);
    }
  }

  /** Quotient and remainder are unique. */
  lemma DivModUnique(n: int, d: int, q: int, r: int)
    requires 0 < d && n == d * q + r && 0 <= r < d
    ensures n / d == q && n % d == r
  {
    var x := n / d - q;
    assert d * x == d * (n / d) - d * q;
    assert d * x == r - n % d;
    if x != 0 {
      NonzeroMultiple(d, x);
    }
  }

  lemma MultipleMod(d: int, q: int)
    requires 0 < d
    ensures (d * q) % d == 0 && (d * q) / d == q
  {
    DivModUnique(d * q, d, q, 0);
  }

  // -------------------------------------------------------------- congruence

  /** a and b leave the same remainder modulo m. */
  predicate Cong(a: int, b: int, m: int)
    requires 0 < m
  {
    a % m == b % m
  }

  /** a and b are congruent exactly when they differ by a multiple of m. */
  lemma CongMultiple(a: int, b: int, m: int, q: int)
    requires 0 < m && a == b + m * q
    ensures Cong(a, b, m)
  {
    assert a == m * (b / m + q) + b % m by {
      assert m * (b / m + q) == m * (b / m) + m * q;
    }
    DivModUnique(a, m, b / m + q, b % m);
  }

  lemma CongQuotient(a: int, b: int, m: int) returns (q: int)
    requires 0 < m && Cong(a, b, m)
    ensures a == b + m * q
  {
    q := a / m - b / m;
    assert m * q == m * (a / m) - m * (b / m);
  }

  lemma CongDifference(a: int, b: int, m: int)
    requires 0 < m
    ensures Cong(a, b, m) <==> (a - b) % m == 0
  {
    if Cong(a, b, m) {
      var q := CongQuotient(a, b, m);
      MultipleMod(m, q);
    }
    if (a - b) % m == 0 {
      CongMultiple(a, b, m, (a - b) / m);
    }
  }

  lemma CongMod(a: int, m: int)
    requires 0 < m
    ensures Cong(a % m, a, m)
  {
    DivModUnique(a % m, m, 0, a % m);
  }

  lemma SmallMod(a: int, m: int)
    requires 0 <= a < m
    ensures a % m == a
  {
    DivModUnique(a, m, 0, a);
  }

  lemma CongSmall(a: int, b: int, m: int)
    requires 0 <= a < m && 0 <= b < m && Cong(a, b, m)
    ensures a == b
  {
    SmallMod(a, m);
    SmallMod(b, m);
  }

  lemma CongAdd(a: int, b: int, c: int, d: int, m: int)
    requires 0 < m && Cong(a, b, m) && Cong(c, d, m)
    ensures Cong(a + c, b + d, m) && Cong(a - c, b - d, m)
  {
    var q := CongQuotient(a, b, m);
    var r := CongQuotient(c, d, m);
    assert m * (q + r) == m * q + m * r && m * (q - r) == m * q - m * r;
    CongMultiple(a + c, b + d, m, q + r);
    CongMultiple(a - c, b - d, m, q - r);
  }

  lemma CongMul(a: int, b: int, c: int, d: int, m: int)
    requires 0 < m && Cong(a, b, m) && Cong(c, d, m)
    ensures Cong(a * c, b * d, m)
  {
    var q := CongQuotient(a, b, m);
    var r := CongQuotient(c, d, m);
    calc {
      a * c;
      (b + m * q) * c;
      b * c + m * q * c;
      b * (d + m * r) + m * q * c;
      b * d + b * (m * r) + m * q * c;
      { assert b * (m * r) == m * (b * r); assert m * q * c == m * (q * c); }
      b * d + m * (b * r) + m * (q * c);
      b * d + m * (b * r + q * c);
    }
    CongMultiple(a * c, b * d, m, b * r + q * c);
  }

  // ------------------------------------------------------------------ powers

  function Pow(b: int, e: nat): int
    decreases e
  {
    if e == 0 then 1 else b * Pow(b, e - 1)
  }

  lemma {:induction false} PowPositive(b: int, e: nat)
    requires 0 < b
    ensures 0 < Pow(b, e)
  {
    if e > 0 {
      PowPositive(b, e - 1);
    }
  }

  lemma {:induction false} PowAdd(b: int, e: nat, f: nat)
    ensures Pow(b, e + f) == Pow(b, e) * Pow(b, f)
  {
    if e > 0 {
      PowAdd(b, e - 1, f);
      assert b * (Pow(b, e - 1) * Pow(b, f)) == (b * Pow(b, e - 1)) * Pow(b, f);
    }
  }

  lemma {:induction false} PowMul(b: int, e: nat, f: nat)
    ensures 0 <= e * f && Pow(Pow(b, e), f) == Pow(b, e * f)
  {
    if f > 0 {
      PowMul(b, e, f - 1);
      assert e * f == e + e * (f - 1);
      PowAdd(b, e, e * (f - 1));
    }
  }

  lemma {:induction false} PowOfProduct(a: int, b: int, e: nat)
    ensures Pow(a * b, e) == Pow(a, e) * Pow(b, e)
  {
    if e > 0 {
      PowOfProduct(a, b, e - 1);
      calc {
        Pow(a * b, e);
        (a * b) * (Pow(a, e - 1) * Pow(b, e - 1));
        (a * Pow(a, e - 1)) * (b * Pow(b, e - 1));
      }
    }
  }

  lemma {:induction false} PowOne(e: nat)
    ensures Pow(1, e) == 1
  {
    if e > 0 {
      PowOne(e - 1);
    }
  }

  lemma {:induction false} PowMonotone(b: int, e: nat, f: nat)
    requires 1 <= b && e <= f
    ensures Pow(b, e) <= Pow(b, f)
  {
    if e < f {
      PowMonotone(b, e, f - 1);
      PowPositive(b, f - 1);
      assert 1 * Pow(b, f - 1) <= b * Pow(b, f - 1);
    }
  }

  lemma {:induction false} CongPow(a: int, b: int, e: nat, m: int)
    requires 0 < m && Cong(a, b, m)
    ensures Cong(Pow(a, e), Pow(b, e), m)
  {
    if e > 0 {
      CongPow(a, b, e - 1, m);
      CongMul(a, b, Pow(a, e - 1), Pow(b, e - 1), m);
    }
  }

  /** math/big's Exp for a non-negative exponent and a positive modulus. */
  function Exp(x: int, y: nat, m: int): (r: int)
    requires 0 < m
    ensures 0 <= r < m
    ensures Cong(r, Pow(x, y), m)
  {
    CongMod(Pow(x, y), m);
    Pow(x, y) % m
  }

  // --------------------------------------------------------------------- gcd

  /** The greatest common divisor by Euclid's recursion. */
  function Gcd(a: nat, b: nat): nat
    decreases b
  {
    if b == 0 then a else Gcd(b, a % b)
  }

  /** The gcd divides both arguments. */
  lemma {:induction false} GcdDivides(a: nat, b: nat)
    requires 0 < a + b
    ensures 0 < Gcd(a, b) && a % Gcd(a, b) == 0 && b % Gcd(a, b) == 0
    decreases b
  {
    if b == 0 {
      MultipleMod(a, 1);
      MultipleMod(a, 0);
    } else {
      GcdDivides(b, a % b);
      var g := Gcd(a, b);
      CombinationMod(b, a % b, g, a / b, 1);
      assert b * (a / b) + (a % b) * 1 == a;
    }
  }

  /** A divisor of x and y divides every integer combination of them. */
  lemma CombinationMod(x: int, y: int, g: int, s: int, t: int)
    requires 0 < g && x % g == 0 && y % g == 0
    ensures (x * s + y * t) % g == 0
  {
    var p, q := x / g, y / g;
    calc {
      x * s + y * t;
      (g * p) * s + (g * q) * t;
      g * (p * s) + g * (q * t);
      g * (p * s + q * t);
    }
    MultipleMod(g, p * s + q * t);
  }

  /** Congruence modulo n implies congruence modulo every divisor of n. */
  lemma CongDivisor(a: int, b: int, m: int, n: int)
    requires 0 < m && 0 < n && n % m == 0 && Cong(a, b, n)
    ensures Cong(a, b, m)
  {
    var q := CongQuotient(a, b, n);
    CombinationMod(n, n, m, q, 0);
    CongMultiple(a, b, m, (n * q) / m);
  }

  /** Bezout coefficients, computed by the extended Euclidean recursion. */
  function Bezout(a: nat, b: nat): (c: (int, int))
    ensures a * c.0 + b * c.1 == Gcd(a, b)
    decreases b
  {
    if b == 0 then (1, 0)
    else
      var (x, y) := Bezout(b, a % b);
      BezoutStep(a, b, x, y);
      (y, x - (a / b) * y)
  }

  lemma BezoutStep(a: nat, b: nat, x: int, y: int)
    requires 0 < b
    ensures a * y + b * (x - (a / b) * y) == b * x + (a % b) * y
  {
    calc {
      a * y + b * (x - (a / b) * y);
      a * y + b * x - b * ((a / b) * y);
      { assert b * ((a / b) * y) == (b * (a / b)) * y; }
      b * x + (a - b * (a / b)) * y;
    }
  }

  predicate IsInverse(a: int, x: int, n: int)
    requires 0 < n
  {
    Cong(a * x, 1, n)
  }

  /** a has an inverse modulo n exactly when the two are coprime. */
  lemma InverseIffCoprime(a: nat, n: nat)
    requires 1 < n
    ensures Gcd(a, n) == 1 <==> exists x :: IsInverse(a, x, n)
  {
    if Gcd(a, n) == 1 {
      var (x, y) := Bezout(a, n);
      CongMultiple(a * x, 1, n, -y);
      assert IsInverse(a, x, n);
    } else if exists x :: IsInverse(a, x, n) {
      var x :| IsInverse(a, x, n);
      InverseMeansCoprime(a, n, x);
    }
  }

  lemma InverseMeansCoprime(a: nat, n: nat, ia: int)
    requires 1 < n && IsInverse(a, ia, n)
    ensures Gcd(a, n) == 1
  {
    var g := Gcd(a, n);
    GcdDivides(a, n);
    var q := CongQuotient(a * ia, 1, n);
    assert a * ia + n * (-q) == 1;
    CombinationMod(a, n, g, ia, -q);
    if g > 1 {
      SmallMod(1, g);
    }
  }

  // ------------------------------------------------------------------ primes

  ghost predicate Prime(p: int) {
    2 <= p && forall d :: 2 <= d < p ==> p % d != 0
  }

  /** A prime not dividing a is coprime to it. */
  lemma PrimeCoprime(p: int, a: nat)
    requires Prime(p) && a % p != 0
    ensures Gcd(a, p) == 1
  {
    var g := Gcd(a, p);
    GcdDivides(a, p);
    if g > p {
      SmallMod(p, g);
    }
  }

  /** Euclid's lemma. */
  lemma EuclidLemma(p: int, a: nat, b: int)
    requires Prime(p) && (a * b) % p == 0
    ensures a % p == 0 || b % p == 0
  {
    if a % p != 0 {
      PrimeCoprime(p, a);
      var (x, y) := Bezout(a, p);
      calc {
        (a * b) * x + p * (y * b);
        (a * x) * b + (p * y) * b;
        (a * x + p * y) * b;
        b;
      }
      MultipleMod(p, 1);
      CombinationMod(a * b, p, p, x, y * b);
    }
  }

  /** A factor coprime to the modulus can be cancelled. */
  lemma CancelFactor(p: int, a: nat, b: int, c: int)
    requires Prime(p) && a % p != 0 && Cong(a * b, a * c, p)
    ensures Cong(b, c, p)
  {
    var q := CongQuotient(a * b, a * c, p);
    assert a * (b - c) == p * q;
    MultipleMod(p, q);
    EuclidLemma(p, a, b - c);
    CongMultiple(b, c, p, (b - c) / p);
  }

  // ------------------------------------------------- Fermat's little theorem

  /** Binomial coefficients by Pascal's rule. */
  function Binomial(n: nat, k: nat): nat {
    if k == 0 then 1
    else if n == 0 then 0
    else Binomial(n - 1, k - 1) + Binomial(n - 1, k)
  }

  lemma {:induction false} BinomialZero(n: nat, k: nat)
    requires n < k
    ensures Binomial(n, k) == 0
  {
    if n > 0 {
      BinomialZero(n - 1, k - 1);
      BinomialZero(n - 1, k);
    }
  }

  lemma {:induction false} BinomialOne(n: nat)
    ensures Binomial(n, n) == 1
  {
    if n > 0 {
      BinomialOne(n - 1);
      BinomialZero(n - 1, n);
    }
  }

  /** The absorption identity k * C(n, k) == n * C(n - 1, k - 1). */
  lemma {:induction false} Absorption(n: nat, k: nat)
    requires 1 <= n && 1 <= k
    ensures k * Binomial(n, k) == n * Binomial(n - 1, k - 1)
  {
    if n == 1 {
      if k > 1 { BinomialZero(1, k); }
    } else if k == 1 {
      Absorption(n - 1, 1);
    } else {
      Absorption(n - 1, k);
      Absorption(n - 1, k - 1);
      var a, b, c := Binomial(n - 2, k - 2), Binomial(n - 2, k - 1), Binomial(n - 1, k);
      AbsorptionStep(n, k, a, b, c);
    }
  }

  lemma AbsorptionStep(n: int, k: int, a: int, b: int, c: int)
    requires (k - 1) * (a + b) == (n - 1) * a && k * c == (n - 1) * b
    ensures k * ((a + b) + c) == n * (a + b)
  {
    assert k * ((a + b) + c) == (k - 1) * (a + b) + (a + b) + k * c;
  }

  /** The partial sum of C(n, j) * a^j for j <= k. */
  function BinomialSum(n: nat, a: int, k: nat): int
    decreases k
  {
    Binomial(n, k) * Pow(a, k) + if k == 0 then 0 else BinomialSum(n, a, k - 1)
  }

  lemma {:induction false} BinomialSumStep(n: nat, a: int, k: nat)
    requires 1 <= k
    ensures BinomialSum(n + 1, a, k) == BinomialSum(n, a, k) + a * BinomialSum(n, a, k - 1)
  {
    var x := Pow(a, k - 1);
    assert Binomial(n + 1, k) * (a * x) == Binomial(n, k) * (a * x) + a * (Binomial(n, k - 1) * x);
    if k > 1 {
      BinomialSumStep(n, a, k - 1);
      assert a * (Binomial(n, k - 1) * x + BinomialSum(n, a, k - 2))
          == a * (Binomial(n, k - 1) * x) + a * BinomialSum(n, a, k - 2);
    }
  }

  /** The binomial theorem for (a + 1)^n. */
  lemma {:induction false} BinomialTheorem(n: nat, a: int)
    ensures BinomialSum(n, a, n) == Pow(a + 1, n)
  {
    if n > 0 {
      BinomialTheorem(n - 1, a);
      BinomialSumStep(n - 1, a, n);
      BinomialZero(n - 1, n);
      var s := BinomialSum(n - 1, a, n - 1);
      assert BinomialSum(n - 1, a, n) == s;
      assert s + a * s == (a + 1) * s;
    }
  }

  /** Modulo a prime only the outer terms of the expansion survive. */
  lemma {:induction false} MiddleTermsVanish(p: int, a: int, k: nat)
    requires Prime(p) && k < p
    ensures Cong(BinomialSum(p, a, k), 1, p)
  {
    if k > 0 {
      MiddleTermsVanish(p, a, k - 1);
      Absorption(p, k);
      MultipleMod(p, Binomial(p - 1, k - 1));
      SmallMod(k, p);
      EuclidLemma(p, k, Binomial(p, k));
      var t := Binomial(p, k) * Pow(a, k);
      CombinationMod(Binomial(p, k), Binomial(p, k), p, Pow(a, k), 0);
      SmallMod(0, p);
      CongAdd(BinomialSum(p, a, k - 1), 1, t, 0, p);
    }
  }

  /** Fermat's little theorem for natural numbers: a^p is congruent to a. */
  lemma {:induction false} FermatNat(p: int, a: nat)
    requires Prime(p)
    ensures Cong(Pow(a, p), a, p)
  {
    if a == 0 {
      assert Pow(0, p) == 0 * Pow(0, p - 1);
    } else {
      FermatNat(p, a - 1);
      BinomialTheorem(p, a - 1);
      MiddleTermsVanish(p, a - 1, p - 1);
      BinomialOne(p);
      CongAdd(Pow(a - 1, p), a - 1, BinomialSum(p, a - 1, p - 1), 1, p);
    }
  }

  /** For a base not divisible by p, a^(p-1) is congruent to 1. */
  lemma Fermat(p: int, a: nat)
    requires Prime(p) && a % p != 0
    ensures Cong(Pow(a, p - 1), 1, p)
  {
    FermatNat(p, a);
    assert a * Pow(a, p - 1) == Pow(a, p) && a * 1 == a;
    CancelFactor(p, a, Pow(a, p - 1), 1);
  }

  /** Exponents of a unit may be reduced modulo p - 1. */
  lemma FermatReduce(p: int, a: nat, e: nat)
    requires Prime(p) && a % p != 0
    ensures Cong(Pow(a, e), Pow(a, e % (p - 1)), p)
  {
    Fermat(p, a);
    OrderReduce(p, p - 1, a, e);
  }

  lemma OrderReduce(p: int, n: int, a: nat, e: nat)
    requires 0 < p && 0 < n && Cong(Pow(a, n), 1, p)
    ensures Cong(Pow(a, e), Pow(a, e % n), p)
  {
    var q, r := e / n, e % n;
    PowSplit(a, n, q, r);
    CongPow(Pow(a, n), 1, q, p);
    PowOne(q);
    CongMul(Pow(Pow(a, n), q), 1, Pow(a, r), Pow(a, r), p);
  }

  lemma PowSplit(a: int, n: nat, q: nat, r: nat)
    ensures 0 <= n * q && Pow(a, n * q + r) == Pow(Pow(a, n), q) * Pow(a, r)
  {
    PowMul(a, n, q);
    PowAdd(a, n * q, r);
  }

  /** A positive exponent congruent to 1 modulo p - 1 fixes every residue. */
  lemma FermatIdentity(p: int, a: nat, e: nat)
    requires Prime(p) && 1 <= e && Cong(e, 1, p - 1)
    ensures Cong(Pow(a, e), a, p)
  {
    if a % p == 0 {
      assert Pow(a, e) == a * Pow(a, e - 1);
      CombinationMod(a, a, p, Pow(a, e - 1), 0);
    } else {
      var q := CongQuotient(e, 1, p - 1);
      FermatReduce(p, a, e);
      FermatReduce(p, a, 1);
      assert Pow(a, 1) == a;
    }
  }
}
