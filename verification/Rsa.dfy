/** Blinded RSA decryption (server/internal/rsa/rsa.go): the plain exponentiation
    and the multi-prime CRT computation, and the octet strings around them. */
module Rsa {
  import opened Wrappers
  import opened Arithmetic
  import opened Bytes

  /** crypto/rsa.CRTValue: the exponent, coefficient and prefix product of a prime
      after the first two. */
  datatype CrtValue = CrtValue(exp: nat, coeff: int, r: int)

  datatype Precomputed = Precomputed(dp: nat, dq: nat, qinv: int, crtValues: seq<CrtValue>)

  datatype PrivateKey = PrivateKey(
    n: nat, e: nat, d: nat, primes: seq<nat>, precomputed: Option<Precomputed>)

  datatype Error = ErrDecryption | ErrRand

  function Product(s: seq<nat>): nat {
    if s == [] then 1 else Product(s[..|s| - 1]) * s[|s| - 1]
  }

  ghost predicate DistinctPrimes(s: seq<nat>) {
    && (forall i :: 0 <= i < |s| ==> Prime(s[i]))
    && (forall i, j :: 0 <= i < j < |s| ==> s[i] != s[j])
  }

  /** Section 3.2 of RFC 8017: a multi-prime key, with CRT values when precomputed. */
  ghost predicate WellFormed(k: PrivateKey) {
    && |k.primes| >= 2
    && DistinctPrimes(k.primes)
    && k.n == Product(k.primes)
    && 1 <= k.e
    && (forall i :: 0 <= i < |k.primes| ==> Cong(k.e * k.d, 1, k.primes[i] - 1))
    && (k.precomputed.Some? ==> WellFormedCrt(k, k.precomputed.value))
  }

  ghost predicate WellFormedCrt(k: PrivateKey, pre: Precomputed)
    requires |k.primes| >= 2 && DistinctPrimes(k.primes)
  {
    var ps := k.primes;
    && pre.dp == k.d % (ps[0] - 1)
    && pre.dq == k.d % (ps[1] - 1)
    && Cong(pre.qinv * ps[1], 1, ps[0])
    && |pre.crtValues| == |ps| - 2
    && forall i :: 0 <= i < |pre.crtValues| ==>
         && pre.crtValues[i].exp == k.d % (ps[2 + i] - 1)
         && pre.crtValues[i].r == Product(ps[..2 + i])
         && Cong(pre.crtValues[i].coeff * pre.crtValues[i].r, 1, ps[2 + i])
  }

  // ------------------------------------------- residues and their recombination

  lemma {:induction false} ProductPositive(s: seq<nat>)
    requires DistinctPrimes(s)
    ensures 0 < Product(s)
    ensures s != [] ==> 1 < Product(s)
  {
    if s != [] {
      var t := s[..|s| - 1];
      ProductPositive(t);
      assert 1 * s[|s| - 1] <= Product(t) * s[|s| - 1];
    }
  }

  /** Every prime of the list divides the product. */
  lemma {:induction false} PrimeDividesProduct(s: seq<nat>, i: nat)
    requires i < |s| && 0 < s[i]
    ensures Product(s) % s[i] == 0
  {
    var t, p := s[..|s| - 1], s[|s| - 1];
    if i == |s| - 1 {
      assert Product(s) == p * Product(t);
      MultipleMod(p, Product(t));
    } else {
      PrimeDividesProduct(t, i);
      CombinationMod(Product(t), Product(t), s[i], p, 0);
    }
  }

  /** A prime outside the list does not divide the product. */
  lemma {:induction false} OtherPrimeCoprime(s: seq<nat>, p: nat)
    requires DistinctPrimes(s) && Prime(p) && p !in s
    ensures Product(s) % p != 0
  {
    if s == [] {
      SmallMod(1, p);
    } else {
      var t, q := s[..|s| - 1], s[|s| - 1];
      OtherPrimeCoprime(t, p);
      if q < p {
        SmallMod(q, p);
      }
      if Product(s) % p == 0 {
        EuclidLemma(p, Product(t), q);
      }
    }
  }

  /** Congruence modulo each distinct prime is congruence modulo the product. */
  lemma {:induction false} ChineseRemainder(s: seq<nat>, a: int, b: int)
    requires DistinctPrimes(s)
    requires forall i :: 0 <= i < |s| ==> Cong(a, b, s[i])
    ensures 0 < Product(s) && Cong(a, b, Product(s))
  {
    ProductPositive(s);
    if s != [] {
      var t, p := s[..|s| - 1], s[|s| - 1];
      ProductPositive(t);
      ChineseRemainder(t, a, b);
      OtherPrimeCoprime(t, p);
      var q := CongQuotient(a, b, Product(t));
      var z := CongQuotient(a, b, p);
      MultipleMod(p, z);
      EuclidLemma(p, Product(t), q);
      CongProduct(a, b, Product(t), p, q);
    }
  }

  lemma CongProduct(a: int, b: int, m: int, p: int, q: int)
    requires 0 < m * p && 0 < p && a == b + m * q && q % p == 0
    ensures Cong(a, b, m * p)
  {
    var h := q / p;
    assert m * q == m * (p * h) == (m * p) * h;
    CongMultiple(a, b, m * p, h);
  }

  /** Conversely, congruence modulo the product holds modulo each prime. */
  lemma CongEachPrime(s: seq<nat>, a: int, b: int, i: nat)
    requires DistinctPrimes(s) && i < |s|
    requires 0 < Product(s) && Cong(a, b, Product(s))
    ensures Cong(a, b, s[i])
  {
    PrimeDividesProduct(s, i);
    CongDivisor(a, b, s[i], Product(s));
  }

  /** One step of Garner's recombination: extending a residue modulo r by one prime. */
  lemma GarnerStep(r: int, p: int, coeff: int, m: int, x: int, diff: int)
    requires 0 < r && 0 < p && 0 <= m < r
    requires Cong(coeff * r, 1, p) && Cong(diff, x - m, p)
    ensures 0 < r * p
    ensures var m' := m + ((diff * coeff) % p) * r;
            0 <= m' < r * p && Cong(m', m, r) && Cong(m', x, p)
  {
    var h := (diff * coeff) % p;
    GarnerBound(r, p, m, h);
    CongMultiple(m + h * r, m, r, h);
    CongMod(diff * coeff, p);
    CongMul(h, diff * coeff, r, r, p);
    CongMul(diff, x - m, coeff * r, 1, p);
    assert diff * (coeff * r) == (diff * coeff) * r;
    assert (x - m) * 1 == x - m;
    assert Cong(h * r, x - m, p);
    CongAdd(m, m, h * r, x - m, p);
  }

  lemma GarnerBound(r: int, p: int, m: int, h: int)
    requires 0 <= m < r && 0 <= h < p
    ensures 0 < r * p && 0 <= m + h * r < r * p
  {
    var k := p - 1 - h;
    calc {
      r * p;
      r * (h + 1 + k);
      h * r + r + k * r;
    }
    assert 0 <= h * r && 0 <= k * r;
  }

  /** What the CRT computation is to deliver: the residue of c^(d mod (p-1)) modulo
      each of the primes. */
  ghost predicate Residues(m: int, c: nat, d: nat, s: seq<nat>)
    requires DistinctPrimes(s)
  {
    forall i :: 0 <= i < |s| ==> Cong(m, Pow(c, d % (s[i] - 1)), s[i])
  }

  /** A prefix's residues survive a change that is a multiple of its product. */
  lemma ResiduesExtend(m: int, m': int, c: nat, d: nat, s: seq<nat>, t: seq<nat>)
    requires DistinctPrimes(t) && |t| == |s| + 1 && s == t[..|s|]
    requires Residues(m, c, d, s)
    requires 0 < Product(s) && Cong(m', m, Product(s))
    requires Cong(m', Pow(c, d % (t[|s|] - 1)), t[|s|])
    ensures Residues(m', c, d, t)
  {
    forall i | 0 <= i < |t| ensures Cong(m', Pow(c, d % (t[i] - 1)), t[i]) {
      if i < |s| {
        assert s[i] == t[i];
        CongEachPrime(s, m', m, i);
      }
    }
  }

  /** The value is below the product of the first k primes and has their residues. */
  ghost predicate Recombined(priv: PrivateKey, c: nat, m: int, k: nat)
    requires DistinctPrimes(priv.primes) && k <= |priv.primes|
  {
    0 <= m < Product(priv.primes[..k]) && Residues(m, c, priv.d, priv.primes[..k])
  }

  lemma {:induction false} ProductOfTwo(s: seq<nat>)
    requires |s| >= 2
    ensures Product(s[..2]) == s[1] * s[0]
  {
    var t := s[..2];
    assert t[..1][..0] == [] && Product(t[..1]) == t[0];
  }

  /** The combination of the first two primes. */
  lemma PairStep(priv: PrivateKey, c: nat, diff: int)
    requires WellFormed(priv) && priv.precomputed.Some?
    requires var p, pre := priv.primes[0], priv.precomputed.value;
             Cong(diff, Exp(c, pre.dp, p) - Exp(c, pre.dq, priv.primes[1]), p)
    ensures var p, q, pre := priv.primes[0], priv.primes[1], priv.precomputed.value;
            Recombined(priv, c, ((diff * pre.qinv) % p) * q + Exp(c, pre.dq, q), 2)
  {
    var p, q, pre := priv.primes[0], priv.primes[1], priv.precomputed.value;
    GarnerStep(q, p, pre.qinv, Exp(c, pre.dq, q), Exp(c, pre.dp, p), diff);
    ProductOfTwo(priv.primes);
  }

  /** The combination of one further prime. */
  lemma NextPrimeStep(priv: PrivateKey, c: nat, m: int, i: nat)
    requires WellFormed(priv) && priv.precomputed.Some? && i < |priv.precomputed.value.crtValues|
    requires Recombined(priv, c, m, 2 + i)
    ensures var v, p := priv.precomputed.value.crtValues[i], priv.primes[2 + i];
            Recombined(priv, c, m + (((Exp(c, v.exp, p) - m) * v.coeff) % p) * v.r, 2 + i + 1)
  {
    var v, p := priv.precomputed.value.crtValues[i], priv.primes[2 + i];
    var x := Exp(c, v.exp, p);
    GarnerStep(v.r, p, v.coeff, m, x, x - m);
    var s, t := priv.primes[..2 + i], priv.primes[..2 + i + 1];
    assert t[..|t| - 1] == s;
    ResiduesExtend(m, m + (((x - m) * v.coeff) % p) * v.r, c, priv.d, s, t);
  }

  /** The two-prime step and the loop over the remaining primes: the result lies in
      [0, N) and has the wanted residue modulo every prime. */
  method CrtExp(priv: PrivateKey, c: nat) returns (m: int)
    requires WellFormed(priv) && priv.precomputed.Some?
    ensures 0 <= m < priv.n
    ensures Residues(m, c, priv.d, priv.primes)
  {
    var pre := priv.precomputed.value;
    var p, q := priv.primes[0], priv.primes[1];
    m := Exp(c, pre.dp, p);
    var m2 := Exp(c, pre.dq, q);
    m := m - m2;
    CongMultiple(m + p, m, p, 1);
    if m < 0 {
      m := m + p;
    }
    PairStep(priv, c, m);
    m := m * pre.qinv;
    m := m % p;
    m := m * q;
    m := m + m2;

    var i := 0;
    while i < |pre.crtValues|
      invariant 0 <= i <= |pre.crtValues|
      invariant Recombined(priv, c, m, 2 + i)
    {
      var prime := priv.primes[2 + i];
      var values := pre.crtValues[i];
      NextPrimeStep(priv, c, m, i);
      m2 := Exp(c, values.exp, prime);
      m2 := m2 - m;
      m2 := m2 * values.coeff;
      m2 := m2 % prime;
      if m2 < 0 {
        m2 := m2 + prime;
      }
      m2 := m2 * values.r;
      m := m + m2;
      i := i + 1;
    }
    assert priv.primes[..|priv.primes|] == priv.primes;
  }

  // -------------------------------------------- when the two branches agree

  /** The reduced exponent gives the same power modulo p, except that 2 reduces every
      exponent to 0 and so loses the even numbers. */
  lemma ReducedExponent(p: int, e: nat, d: nat, c: nat)
    requires Prime(p) && 1 <= e && 1 <= d && Cong(e * d, 1, p - 1)
    ensures Cong(Pow(c, d % (p - 1)), Pow(c, d), p) <==> p != 2 || c % 2 == 1
  {
    if c % p != 0 {
      FermatReduce(p, c, d);
    } else {
      var f := d % (p - 1);
      assert Pow(c, d) == c * Pow(c, d - 1);
      CombinationMod(c, c, p, Pow(c, d - 1), 0);
      if p == 2 {
        assert f == 0;
      } else {
        if f == 0 {
          CombinationMod(d, d, p - 1, e, 0);
          SmallMod(1, p - 1);
        }
        assert Pow(c, f) == c * Pow(c, f - 1);
        CombinationMod(c, c, p, Pow(c, f - 1), 0);
      }
    }
  }

  /** The private exponent of a well-formed key is positive: one prime is odd. */
  lemma ExponentPositive(k: PrivateKey)
    requires WellFormed(k)
    ensures 1 <= k.d && 1 <= k.e * k.d
  {
    var i := if k.primes[0] == 2 then 1 else 0;
    if k.d == 0 {
      assert k.e * k.d == 0;
      assert Cong(0, 1, k.primes[i] - 1);
      SmallMod(0, k.primes[i] - 1);
      SmallMod(1, k.primes[i] - 1);
    } else {
      assert k.e * k.d >= 1 * k.d;
    }
  }

  /** The inputs on which decryption delivers c^D mod N: always without CRT values,
      and with them unless 2 is a prime of the key and c is even. */
  predicate Faithful(k: PrivateKey, c: nat) {
    k.precomputed.None? || 2 !in k.primes || c % 2 == 1
  }

  /** The CRT result is c^D mod N if and only if no prime is 2 or c is odd. */
  lemma CrtIsPlain(k: PrivateKey, c: nat, m: int)
    requires WellFormed(k) && 0 <= m < k.n && Residues(m, c, k.d, k.primes)
    ensures m == Exp(c, k.d, k.n) <==> 2 !in k.primes || c % 2 == 1
  {
    ExponentPositive(k);
    if 2 !in k.primes || c % 2 == 1 {
      forall i | 0 <= i < |k.primes| ensures Cong(m, Exp(c, k.d, k.n), k.primes[i]) {
        ReducedExponent(k.primes[i], k.e, k.d, c);
        CongEachPrime(k.primes, Exp(c, k.d, k.n), Pow(c, k.d), i);
      }
      ChineseRemainder(k.primes, m, Exp(c, k.d, k.n));
      CongSmall(m, Exp(c, k.d, k.n), k.n);
    } else if m == Exp(c, k.d, k.n) {
      var i :| 0 <= i < |k.primes| && k.primes[i] == 2;
      CongEachPrime(k.primes, m, Pow(c, k.d), i);
      ReducedExponent(2, k.e, k.d, c);
    }
  }

  // ---------------------------------------------------------------- blinding

  /** Raising to e * d fixes every residue modulo N. */
  lemma RsaIdentity(k: PrivateKey, m: nat)
    requires WellFormed(k)
    ensures 1 < k.n && 0 <= k.e * k.d && Cong(Pow(m, k.e * k.d), m, k.n)
  {
    ProductPositive(k.primes);
    ExponentPositive(k);
    forall i | 0 <= i < |k.primes| ensures Cong(Pow(m, k.e * k.d), m, k.primes[i]) {
      FermatIdentity(k.primes[i], m, k.e * k.d);
    }
    ChineseRemainder(k.primes, Pow(m, k.e * k.d), m);
  }

  /** The blinded ciphertext's power is the wanted power times r. */
  lemma BlindedPower(k: PrivateKey, c: nat, r: nat, b: nat)
    requires WellFormed(k) && 0 < k.n && Cong(b, c * Pow(r, k.e), k.n)
    ensures Cong(Pow(b, k.d), Pow(c, k.d) * r, k.n)
  {
    var re := Pow(r, k.e);
    CongPow(b, c * re, k.d, k.n);
    PowOfProduct(c, re, k.d);
    PowMul(r, k.e, k.d);
    RsaIdentity(k, r);
    CongMul(Pow(c, k.d), Pow(c, k.d), Pow(re, k.d), r, k.n);
  }

  /** Multiplying by the inverse of r removes it, and reveals whether it was there. */
  lemma Unblind(n: nat, mb: int, w: int, x: int, r: int, ir: int)
    requires 0 < n && 0 <= mb < n && Cong(r * ir, 1, n) && Cong(w, x * r, n)
    ensures (mb * ir) % n == x % n <==> mb == w % n
  {
    if mb == w % n {
      CongMod(w, n);
      CongMul(mb, x * r, ir, ir, n);
      CongMul(x, x, r * ir, 1, n);
      assert x * r * ir == x * (r * ir);
    }
    if (mb * ir) % n == x % n {
      CongMul(mb * ir, x, r, r, n);
      CongMul(mb, mb, r * ir, 1, n);
      assert mb * ir * r == mb * (r * ir);
      SmallMod(mb, n);
    }
  }

  /** Blinding preserves the parity of c when 2 divides N. */
  lemma BlindedParity(k: PrivateKey, c: nat, r: nat, b: nat)
    requires WellFormed(k) && 0 < k.n && 2 in k.primes && Gcd(r, k.n) == 1
    requires Cong(b, c * Pow(r, k.e), k.n)
    ensures b % 2 == c % 2
  {
    var i :| 0 <= i < |k.primes| && k.primes[i] == 2;
    CongEachPrime(k.primes, b, c * Pow(r, k.e), i);
    PrimeDividesProduct(k.primes, i);
    if r % 2 == 0 {
      var (x, y) := Bezout(r, k.n);
      CombinationMod(r, k.n, 2, x, y);
    }
    CongPow(r, 1, k.e, 2);
    PowOne(k.e);
    CongMul(c, c, Pow(r, k.e), 1, 2);
  }

  /** Euclid's coefficients stay within the arguments. */
  /** Half the product of distinct primes with 2 among them is odd. */
  lemma {:induction false} HalfOdd(s: seq<nat>)
    requires DistinctPrimes(s) && 2 in s
    ensures Product(s) % 2 == 0 && (Product(s) / 2) % 2 == 1
  {
    var t, q := s[..|s| - 1], s[|s| - 1];
    if q == 2 {
      OtherPrimeCoprime(t, 2);
      assert Product(s) == 2 * Product(t);
    } else {
      assert 2 in t;
      HalfOdd(t);
      OddPrime(q);
      HalfTimesOdd(Product(t), q);
    }
  }

  lemma OddPrime(q: nat)
    requires Prime(q) && q != 2
    ensures q % 2 == 1
  {
  }

  lemma HalfTimesOdd(x: nat, q: nat)
    requires x % 2 == 0 && (x / 2) % 2 == 1 && q % 2 == 1
    ensures (x * q) % 2 == 0 && (x * q / 2) % 2 == 1
  {
    var h := x / 2;
    assert x * q == 2 * (h * q);
    CongMul(h, 1, q, 1, 2);
  }

  /** And it is a multiple of each of the other primes. */
  lemma HalfDivisible(s: seq<nat>, i: nat)
    requires DistinctPrimes(s) && 2 in s && i < |s| && s[i] != 2
    ensures (Product(s) / 2) % s[i] == 0
  {
    HalfOdd(s);
    PrimeDividesProduct(s, i);
    var h := Product(s) / 2;
    assert Product(s) == 2 * h;
    SmallMod(2, s[i]);
    EuclidLemma(s[i], 2, h);
  }

  /** With the prime 2 and an even ciphertext, unblinding the CRT result gives c^D plus half
      the modulus. */
  lemma UnblindEven(k: PrivateKey, c: nat, r: nat, ir: int, b: nat, m: int)
    requires WellFormed(k) && 0 < k.n && 2 in k.primes && c % 2 == 0 && b % 2 == 0
    requires Residues(m, b, k.d, k.primes) && Cong(b, c * Pow(r, k.e), k.n) && Cong(r * ir, 1, k.n)
    ensures (m * ir) % k.n == (Exp(c, k.d, k.n) + k.n / 2) % k.n
  {
    var w := Exp(c, k.d, k.n) + k.n / 2;
    forall i | 0 <= i < |k.primes| ensures Cong(m * ir, w, k.primes[i]) {
      if k.primes[i] == 2 {
        EvenAtTwo(k, c, r, ir, b, m, i);
      } else {
        EvenAtOdd(k, c, r, ir, b, m, i);
      }
    }
    ChineseRemainder(k.primes, m * ir, w);
  }

  lemma EvenAtTwo(k: PrivateKey, c: nat, r: nat, ir: int, b: nat, m: int, i: nat)
    requires WellFormed(k) && 0 < k.n && i < |k.primes| && k.primes[i] == 2 && c % 2 == 0
    requires Residues(m, b, k.d, k.primes) && Cong(r * ir, 1, k.n)
    ensures Cong(m * ir, Exp(c, k.d, k.n) + k.n / 2, 2)
  {
    HalfOdd(k.primes);
    ExponentPositive(k);
    CongEachPrime(k.primes, r * ir, 1, i);
    CongEachPrime(k.primes, Exp(c, k.d, k.n), Pow(c, k.d), i);
    CongPow(c, 0, k.d, 2);
    assert Pow(0, k.d) == 0;
    OddFactor(r, ir);
    assert Pow(b, k.d % 1) == 1;
    CongMul(m, 1, ir, 1, 2);
    CongAdd(Exp(c, k.d, k.n), 0, k.n / 2, 1, 2);
  }

  lemma OddFactor(r: int, ir: int)
    requires Cong(r * ir, 1, 2)
    ensures Cong(ir, 1, 2)
  {
    if ir % 2 == 0 {
      CongMul(r, r, ir, 0, 2);
    }
  }

  lemma EvenAtOdd(k: PrivateKey, c: nat, r: nat, ir: int, b: nat, m: int, i: nat)
    requires WellFormed(k) && 0 < k.n && 2 in k.primes && i < |k.primes| && k.primes[i] != 2
    requires Residues(m, b, k.d, k.primes) && Cong(b, c * Pow(r, k.e), k.n) && Cong(r * ir, 1, k.n)
    ensures Cong(m * ir, Exp(c, k.d, k.n) + k.n / 2, k.primes[i])
  {
    var p, x := k.primes[i], Pow(c, k.d);
    ExponentPositive(k);
    ReducedExponent(p, k.e, k.d, b);
    BlindedPower(k, c, r, b);
    CongEachPrime(k.primes, Pow(b, k.d), x * r, i);
    CongEachPrime(k.primes, r * ir, 1, i);
    HalfDivisible(k.primes, i);
    CongEachPrime(k.primes, Exp(c, k.d, k.n), x, i);
    UnblindAt(p, x, r, ir, m, Exp(c, k.d, k.n), k.n / 2);
  }

  lemma UnblindAt(p: int, x: int, r: int, ir: int, m: int, v: int, half: int)
    requires 0 < p && Cong(m, x * r, p) && Cong(r * ir, 1, p) && Cong(v, x, p) && half % p == 0
    ensures Cong(m * ir, v + half, p)
  {
    CongMul(m, x * r, ir, ir, p);
    CongMul(x, x, r * ir, 1, p);
    assert x * r * ir == x * (r * ir);
    CongAdd(v, x, half, 0, p);
  }

  lemma {:induction false} BezoutBound(a: nat, b: nat)
    requires 0 < b
    ensures Abs(Bezout(a, b).0) <= b
    ensures Abs(Bezout(a, b).1) <= if a == 0 then 1 else a
    decreases b
  {
    var r, q := a % b, a / b;
    var (x, y) := Bezout(b, r);
    assert Bezout(a, b) == (y, x - q * y);
    if r > 0 {
      BezoutBound(b, r);
      AbsStep(a, b, q, r, x, y);
    }
  }

  function Abs(x: int): nat {
    if x < 0 then -x else x
  }

  lemma AbsStep(a: nat, b: nat, q: nat, r: nat, x: int, y: int)
    requires a == b * q + r && Abs(x) <= r && Abs(y) <= b
    ensures Abs(x - q * y) <= a
  {
    assert q * (b - y) >= 0 && q * (b + y) >= 0;
    assert q * (b - y) == b * q - q * y && q * (b + y) == b * q + q * y;
  }

  /** A Bezout coefficient of 1 is an inverse, and so is n plus it. */
  lemma InverseFromBezout(a: nat, n: nat, x: int, y: int)
    requires 1 < n && a * x + n * y == 1
    ensures Cong(a * x, 1, n) && Cong(a * (x + n), 1, n)
  {
    CongMultiple(a * x, 1, n, -y);
    assert a * (x + n) == 1 + n * (a - y);
    CongMultiple(a * (x + n), 1, n, a - y);
  }

  lemma InverseNotMultiple(a: nat, n: nat, x: int, y: int)
    requires 1 < n && a * x + n * y == 1
    ensures x % n != 0 && x != 0 && x != n && -x != n
  {
    if x % n == 0 {
      MultipleMod(n, 1);
      CombinationMod(x, n, n, a, y);
      SmallMod(1, n);
    }
    MultipleMod(n, -1);
    MultipleMod(n, 1);
    MultipleMod(n, 0);
  }

  /** ok exactly when an inverse exists; then ia is the one in [1, n). */
  method ModInverse(a: nat, n: nat) returns (ia: int, ok: bool)
    requires 1 < n
    ensures ok <==> Gcd(a, n) == 1
    ensures ok <==> exists x :: IsInverse(a, x, n)
    ensures ok ==> 1 <= ia < n && IsInverse(a, ia, n)
  {
    InverseIffCoprime(a, n);
    var g := Gcd(a, n);
    var (x, y) := Bezout(a, n);
    if g != 1 {
      return 0, false;
    }
    BezoutBound(a, n);
    InverseFromBezout(a, n, x, y);
    InverseNotMultiple(a, n, x, y);
    if x < 1 {
      x := x + n;
    }
    return x, true;
  }

  // -------------------------------------------------------------- decryption

  /** The value a draw contributes: rand.Int's result with 0 replaced by 1. */
  function Blind(draw: nat): (r: nat)
    ensures 1 <= r && (0 < draw ==> r == draw)
  {
    if draw == 0 then 1 else draw
  }

  /** Some draw is invertible modulo n, so the retry loop ends with it. */
  predicate Drawable(draws: seq<nat>, n: nat) {
    exists i :: 0 <= i < |draws| && Gcd(Blind(draws[i]), n) == 1
  }

  /** Draw i is invertible modulo n and none before it is. */
  predicate FirstInvertible(draws: seq<nat>, n: nat, i: nat)
    requires i < |draws|
  {
    Gcd(Blind(draws[i]), n) == 1 && forall j :: 0 <= j < i ==> Gcd(Blind(draws[j]), n) != 1
  }

  /** The retry loop: the first invertible draw and its inverse, or a failure of the
      random source when there is none. */
  method DrawBlind(n: nat, draws: seq<nat>) returns (r: nat, ir: int, ok: bool)
    requires 1 < n
    ensures ok <==> Drawable(draws, n)
    ensures ok ==> Gcd(r, n) == 1 && Cong(r * ir, 1, n)
    ensures ok ==> exists i :: 0 <= i < |draws| && FirstInvertible(draws, n, i) && r == Blind(draws[i])
  {
    r, ir, ok := 0, 0, false;
    var i := 0;
    while !ok
      invariant 0 <= i <= |draws|
      invariant !ok ==> forall j :: 0 <= j < i ==> Gcd(Blind(draws[j]), n) != 1
      invariant ok ==> 0 < i && FirstInvertible(draws, n, i - 1) && r == Blind(draws[i - 1])
      invariant ok ==> Gcd(r, n) == 1 && Cong(r * ir, 1, n)
      invariant ok ==> 0 < i && Gcd(Blind(draws[i - 1]), n) == 1
      decreases !ok, |draws| - i
    {
      if i == |draws| {
        return;
      }
      r := draws[i];
      if r == 0 {
        r := 1;
      }
      ir, ok := ModInverse(r, n);
      i := i + 1;
    }
  }

  /** rsaDecryptInt. draws are the results of successive calls of rand.Int; running out
      of them is a failure of the random source. */
  method DecryptInt(priv: PrivateKey, ciphertext: nat, draws: seq<nat>) returns (res: Result<int, Error>)
    requires priv.n == 0 || WellFormed(priv)
    ensures ciphertext > priv.n || priv.n == 0 ==> res == Err(ErrDecryption)
    ensures 0 < priv.n && ciphertext <= priv.n ==> (res == Err(ErrRand) <==> !Drawable(draws, priv.n))
    ensures 0 < priv.n && ciphertext <= priv.n && Drawable(draws, priv.n) ==>
              && res.Ok? && 0 <= res.value < priv.n
              && res.value == (if Faithful(priv, ciphertext) then Exp(ciphertext, priv.d, priv.n)
                               else (Exp(ciphertext, priv.d, priv.n) + priv.n / 2) % priv.n)
              && (res.value == Exp(ciphertext, priv.d, priv.n) <==> Faithful(priv, ciphertext))
  {
    if ciphertext > priv.n {
      return Err(ErrDecryption);
    }
    if priv.n == 0 {
      return Err(ErrDecryption);
    }
    ProductPositive(priv.primes);
    var r, ir, ok := DrawBlind(priv.n, draws);
    if !ok {
      return Err(ErrRand);
    }
    var rpowe := Exp(r, priv.e, priv.n);
    var c := ciphertext;
    c := c * rpowe;
    c := c % priv.n;
    BlindedCiphertext(priv, ciphertext, r);

    var m: int;
    if priv.precomputed.None? {
      m := Exp(c, priv.d, priv.n);
    } else {
      m := CrtExp(priv, c);
      CrtIsPlain(priv, c, m);
      if 2 in priv.primes {
        BlindedParity(priv, ciphertext, r, c);
        if ciphertext % 2 == 0 {
          UnblindEven(priv, ciphertext, r, ir, c, m);
        }
      }
    }
    BlindedPower(priv, ciphertext, r, c);
    Unblind(priv.n, m, Pow(c, priv.d), Pow(ciphertext, priv.d), r, ir);
    m := m * ir;
    m := m % priv.n;
    return Ok(m);
  }

  lemma BlindedCiphertext(k: PrivateKey, c: nat, r: nat)
    requires 0 < k.n
    ensures 0 <= c * Exp(r, k.e, k.n)
    ensures Cong((c * Exp(r, k.e, k.n)) % k.n, c * Pow(r, k.e), k.n)
  {
    CongMod(c * Exp(r, k.e, k.n), k.n);
    CongMul(c, c, Exp(r, k.e, k.n), Pow(r, k.e), k.n);
  }

  /** leftPad: the input right-aligned in size octets; a longer input keeps its front. */
  method LeftPad(input: seq<byte>, size: nat) returns (out: array<byte>)
    ensures fresh(out) && out.Length == size
    ensures |input| <= size ==> out[..] == Zeros(size - |input|) + input
    ensures |input| > size ==> out[..] == input[..size]
  {
    var n := |input|;
    if n > size {
      n := size;
    }
    out := new byte[size](_ => 0);
    var i := 0;
    while i < n
      invariant 0 <= i <= n
      invariant forall j :: 0 <= j < size - n ==> out[j] == 0
      invariant forall j :: 0 <= j < i ==> out[size - n + j] == input[j]
    {
      out[size - n + i] := input[i];
      i := i + 1;
    }
    assert forall j :: size - n <= j < size ==> out[j] == out[size - n + (j - (size - n))];
  }

  /** Decrypt: for a key of at least 11 octets, the plaintext is the k-octet form of an
      integer below N, and that integer is c^D mod N exactly on the faithful inputs. */
  method Decrypt(priv: PrivateKey, ciphertext: seq<byte>, draws: seq<nat>)
    returns (res: Result<seq<byte>, Error>)
    requires priv.n == 0 || WellFormed(priv)
    ensures OctetLen(priv.n) < 11 || Os2ip(ciphertext) > priv.n ==> res == Err(ErrDecryption)
    ensures OctetLen(priv.n) >= 11 && Os2ip(ciphertext) <= priv.n ==>
              (res == Err(ErrRand) <==> !Drawable(draws, priv.n))
    ensures OctetLen(priv.n) >= 11 && Os2ip(ciphertext) <= priv.n && Drawable(draws, priv.n) ==>
              && res.Ok? && |res.value| == OctetLen(priv.n) && Os2ip(res.value) < priv.n
              && (res.value == Plaintext(priv, Os2ip(ciphertext)) <==> Faithful(priv, Os2ip(ciphertext)))
  {
    var k := OctetLen(priv.n);
    if k < 11 {
      return Err(ErrDecryption);
    }
    var c := Os2ip(ciphertext);
    var m := DecryptInt(priv, c, draws);
    if m.Err? {
      return Err(m.error);
    }
    OctetForm(priv, c, m.value);
    var out := LeftPad(MinBytes(m.value), k);
    return Ok(out[..]);
  }

  /** The octet string of c^D mod N, as long as N. */
  function Plaintext(k: PrivateKey, c: nat): (s: seq<byte>)
    requires 0 < k.n
  {
    I2osp(Exp(c, k.d, k.n), OctetLen(k.n))
  }

  /** Padding the shortest form of v < N loses nothing. */
  lemma OctetForm(k: PrivateKey, c: nat, v: nat)
    requires v < k.n
    ensures var len := OctetLen(k.n);
            && |MinBytes(v)| <= len
            && Os2ip(Zeros(len - |MinBytes(v)|) + MinBytes(v)) == v
            && (Zeros(len - |MinBytes(v)|) + MinBytes(v) == Plaintext(k, c) <==> v == Exp(c, k.d, k.n))
  {
    PaddedMinBytes(v, OctetLen(k.n));
    I2ospExact(v, OctetLen(k.n));
    I2ospExact(Exp(c, k.d, k.n), OctetLen(k.n));
  }

  /** Decryption undoes encryption (sections 5.1.1 and 5.1.2 of RFC 8017), and the
      ciphertext is one the key accepts and treats faithfully whenever m is odd or the
      key has no prime 2. */
  lemma DecryptUndoesEncrypt(k: PrivateKey, m: nat)
    requires WellFormed(k) && m < k.n
    ensures var c := Exp(m, k.e, k.n);
            && c < k.n
            && Exp(c, k.d, k.n) == m
            && Plaintext(k, c) == I2osp(m, OctetLen(k.n))
            && (Faithful(k, c) <==> Faithful(k, m))
  {
    var c := Exp(m, k.e, k.n);
    CongPow(c, Pow(m, k.e), k.d, k.n);
    PowMul(m, k.e, k.d);
    RsaIdentity(k, m);
    CongSmall(Exp(c, k.d, k.n), m, k.n);
    if 2 in k.primes {
      var i :| 0 <= i < |k.primes| && k.primes[i] == 2;
      CongEachPrime(k.primes, c, Pow(m, k.e), i);
      CongPow(m, m % 2, k.e, 2);
      if m % 2 == 1 {
        PowOne(k.e);
      } else {
        assert Pow(0, k.e) == 0;
      }
    }
  }
}
