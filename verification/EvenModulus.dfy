/** A key with the prime 2 that the server's Decrypt does not refuse, and on which its
    Chinese-remainder branch decrypts wrongly. */
module EvenModulus {
  import opened Wrappers
  import opened Arithmetic
  import opened Bytes
  import opened Rsa

  const PRIMES: seq<nat> := [2, 1021, 1019, 1013, 1009, 997, 991, 983, 977]

  /** The factors' product has 81 bits; D is the inverse of 65537 modulo each p - 1. */
  const EVEN_KEY: PrivateKey :=
    PrivateKey(2018122050802884889324862, 65537, 3074897641052753, PRIMES, Some(Precomputed(0, 893, 1, CRT_VALUES)))

  const CRT_VALUES: seq<CrtValue> := [
    CrtValue(431, 255, 2042),
    CrtValue(329, 707, 2080798),
    CrtValue(593, 453, 2107848374),
    CrtValue(5, 58, 2126819009366),
    CrtValue(593, 102, 2120438552337902),
    CrtValue(619, 372, 2101354605366860882),
    CrtValue(801, 953, 2065631577075624247006)]

  /** No prime up to 31 divides p. */
  predicate NoSmallFactor(p: nat) {
    && p % 2 != 0 && p % 3 != 0 && p % 5 != 0 && p % 7 != 0 && p % 11 != 0 && p % 13 != 0
    && p % 17 != 0 && p % 19 != 0 && p % 23 != 0 && p % 29 != 0 && p % 31 != 0
  }

  lemma FactorOfFactor(p: nat, d: nat, f: nat)
    requires 0 < d && 0 < f && p % d == 0 && d % f == 0
    ensures p % f == 0
  {
    CombinationMod(d, d, f, p / d, 0);
    assert p == d * (p / d);
  }

  lemma NoSmallDivisor(p: nat, d: nat)
    requires NoSmallFactor(p) && 2 <= d <= 31
    ensures p % d != 0
  {
    if p % d == 0 {
      var f := SmallFactor(d);
      FactorOfFactor(p, d, f);
    }
  }

  lemma SmallFactor(d: nat) returns (f: nat)
    requires 2 <= d <= 31
    ensures 0 < f && f in {2, 3, 5, 7, 11, 13, 17, 19, 23, 29, 31} && d % f == 0
  {
    f := if d % 2 == 0 then 2 else if d % 3 == 0 then 3 else if d % 5 == 0 then 5 else d;
  }

  /** Below 1024, trial division up to 31 decides primality. */
  lemma TrialDivision(p: nat)
    requires 31 < p < 1024 && NoSmallFactor(p)
    ensures Prime(p)
  {
    forall d | 2 <= d < p ensures p % d != 0 {
      if p % d == 0 {
        SmallCofactor(p, d, p / d);
        NoSmallDivisor(p, if d <= 31 then d else p / d);
      }
    }
  }

  lemma SmallCofactor(p: nat, d: nat, q: nat)
    requires 2 <= d < p < 1024 && p % d == 0 && q == p / d
    ensures 2 <= q && p % q == 0 && (d <= 31 || q <= 31)
  {
    assert p == q * d;
    MultipleMod(q, d);
    if d > 31 && q > 31 {
      LargeProduct(d, q);
    }
  }

  lemma LargeProduct(d: nat, q: nat)
    requires 32 <= d && 32 <= q
    ensures 1024 <= q * d
  {
    assert 32 * 32 <= q * 32 <= q * d;
  }

  lemma AllPrime()
    ensures DistinctPrimes(PRIMES)
  {
    TrialDivision(1021);
    TrialDivision(1019);
    TrialDivision(1013);
    TrialDivision(1009);
    TrialDivision(997);
    TrialDivision(991);
    TrialDivision(983);
    TrialDivision(977);
  }

  lemma ProductStep(s: seq<nat>, i: nat)
    requires i < |s|
    ensures Product(s[..i + 1]) == Product(s[..i]) * s[i]
  {
    assert s[..i + 1][..i] == s[..i];
  }

  /** The products of the first primes. */
  lemma Products()
    ensures Product(PRIMES[..2]) == 2042
    ensures Product(PRIMES[..3]) == 2080798
    ensures Product(PRIMES[..4]) == 2107848374
    ensures Product(PRIMES[..5]) == 2126819009366
    ensures Product(PRIMES[..6]) == 2120438552337902
    ensures Product(PRIMES[..7]) == 2101354605366860882
    ensures Product(PRIMES[..8]) == 2065631577075624247006
    ensures Product(PRIMES) == EVEN_KEY.n
  {
    assert Product(PRIMES[..0]) == 1;
    ProductStep(PRIMES, 0);
    ProductStep(PRIMES, 1);
    ProductStep(PRIMES, 2);
    ProductStep(PRIMES, 3);
    ProductStep(PRIMES, 4);
    ProductStep(PRIMES, 5);
    ProductStep(PRIMES, 6);
    ProductStep(PRIMES, 7);
    ProductStep(PRIMES, 8);
    assert PRIMES[..9] == PRIMES;
  }

  lemma Exponents(i: nat)
    requires i < |PRIMES|
    ensures 1 < PRIMES[i] && Cong(EVEN_KEY.e * EVEN_KEY.d, 1, PRIMES[i] - 1)
  {
  }

  lemma CrtExponent(i: nat)
    requires i < |CRT_VALUES|
    ensures 1 < PRIMES[2 + i] && CRT_VALUES[i].exp == EVEN_KEY.d % (PRIMES[2 + i] - 1)
  {
  }

  lemma CrtCoefficient(i: nat)
    requires i < |CRT_VALUES|
    ensures 1 < PRIMES[2 + i] && Cong(CRT_VALUES[i].coeff * CRT_VALUES[i].r, 1, PRIMES[2 + i])
  {
  }

  lemma CrtProduct(i: nat)
    requires i < |CRT_VALUES|
    ensures CRT_VALUES[i].r == Product(PRIMES[..2 + i])
  {
    Products();
  }

  lemma KeyWellFormed()
    ensures WellFormed(EVEN_KEY) && !Faithful(EVEN_KEY, 2)
  {
    AllPrime();
    Products();
    assert PRIMES[0] == 2;
    forall i | 0 <= i < |PRIMES| ensures Cong(EVEN_KEY.e * EVEN_KEY.d, 1, PRIMES[i] - 1) {
      Exponents(i);
    }
    forall i | 0 <= i < |CRT_VALUES|
      ensures CRT_VALUES[i].exp == EVEN_KEY.d % (PRIMES[2 + i] - 1)
      ensures CRT_VALUES[i].r == Product(PRIMES[..2 + i])
      ensures Cong(CRT_VALUES[i].coeff * CRT_VALUES[i].r, 1, PRIMES[2 + i])
    {
      CrtExponent(i);
      CrtProduct(i);
      CrtCoefficient(i);
    }
  }

  lemma KeyLength()
    ensures OctetLen(EVEN_KEY.n) == 11
  {
  }

  /** Decrypt accepts this key and the ciphertext 2, and does not return its plaintext,
      whatever the draws. */
  method DecryptWrongly(draws: seq<nat>) returns (res: Result<seq<byte>, Error>)
    ensures WellFormed(EVEN_KEY)
    ensures Drawable(draws, EVEN_KEY.n) ==> res.Ok? && res.value != Plaintext(EVEN_KEY, 2)
  {
    KeyWellFormed();
    KeyLength();
    assert Os2ip([2]) == 2 by {
      assert [2][..0] == [];
    }
    res := Decrypt(EVEN_KEY, [2], draws);
  }
}
