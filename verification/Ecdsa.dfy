/** ECDSA signing split into nonce precomputation and signature
    (server/internal/ecdsa/ecdsa.go), over an abstract group of prime order. */
module Ecdsa {
  import opened Wrappers
  import opened Arithmetic
  import opened Bytes

  // -------------------------------------------------------------- the group

  /** A curve's group: its order, base point, neutral point, addition and affine
      x-coordinate. fastInverse says whether the curve brings its own inverse. */
  datatype Curve<!Point> = Curve(
    name: string, n: nat, base: Point, zero: Point,
    add: (Point, Point) -> Point, xcoord: Point -> nat, fastInverse: bool)

  /** The scalar multiple k * p. */
  function Mul<Point>(c: Curve<Point>, k: nat, p: Point): Point
    decreases k
  {
    if k == 0 then c.zero else c.add(p, Mul(c, k - 1, p))
  }

  ghost predicate AssociativeAt<Point>(c: Curve<Point>, p: Point, q: Point, r: Point) {
    c.add(c.add(p, q), r) == c.add(p, c.add(q, r))
  }

  ghost predicate NeutralAt<Point>(c: Curve<Point>, p: Point) {
    c.add(c.zero, p) == p && c.add(p, c.zero) == p
  }

  /** The base point generates a group of prime order n. */
  ghost predicate GroupOfPrimeOrder<Point(!new)>(c: Curve<Point>) {
    && Prime(c.n)
    && (forall p, q, r :: AssociativeAt(c, p, q, r))
    && (forall p :: NeutralAt(c, p))
    && c.base != c.zero
    && Mul(c, c.n, c.base) == c.zero
  }

  lemma {:induction false} MulAdd<Point(!new)>(c: Curve<Point>, j: nat, k: nat, p: Point)
    requires GroupOfPrimeOrder(c)
    ensures Mul(c, j + k, p) == c.add(Mul(c, j, p), Mul(c, k, p))
    decreases j
  {
    if j == 0 {
      assert NeutralAt(c, Mul(c, k, p));
    } else {
      MulAdd(c, j - 1, k, p);
      assert AssociativeAt(c, p, Mul(c, j - 1, p), Mul(c, k, p));
    }
  }

  lemma {:induction false} MulMul<Point(!new)>(c: Curve<Point>, j: nat, k: nat, p: Point)
    requires GroupOfPrimeOrder(c)
    ensures 0 <= j * k && Mul(c, j, Mul(c, k, p)) == Mul(c, j * k, p)
    decreases j
  {
    if j > 0 {
      MulMul(c, j - 1, k, p);
      assert j * k == k + (j - 1) * k;
      MulAdd(c, k, (j - 1) * k, p);
    }
  }

  lemma {:induction false} MulZero<Point(!new)>(c: Curve<Point>, j: nat)
    requires GroupOfPrimeOrder(c)
    ensures Mul(c, j, c.zero) == c.zero
    decreases j
  {
    if j > 0 {
      MulZero(c, j - 1);
      assert NeutralAt(c, c.zero);
    }
  }

  /** Scalars of the base point may be reduced modulo the order. */
  lemma MulMod<Point(!new)>(c: Curve<Point>, k: nat)
    requires GroupOfPrimeOrder(c)
    ensures Mul(c, k, c.base) == Mul(c, k % c.n, c.base)
  {
    var q, r := k / c.n, k % c.n;
    assert 0 <= q && q * c.n + r == k;
    MulMul(c, q, c.n, c.base);
    MulZero(c, q);
    MulAdd(c, q * c.n, r, c.base);
    assert NeutralAt(c, Mul(c, r, c.base));
  }

  lemma MulCong<Point(!new)>(c: Curve<Point>, j: nat, k: nat)
    requires GroupOfPrimeOrder(c) && Cong(j, k, c.n)
    ensures Mul(c, j, c.base) == Mul(c, k, c.base)
  {
    MulMod(c, j);
    MulMod(c, k);
  }

  // ------------------------------------------------------------- inversion

  /** fermatInverse: k^(n-2) mod n is the inverse of k. */
  function FermatInverse(k: nat, n: nat): (inv: int)
    requires 2 <= n
    ensures 0 <= inv < n
  {
    Exp(k, n - 2, n)
  }

  lemma FermatInverseCorrect(k: nat, n: nat)
    requires Prime(n) && k % n != 0
    ensures Cong(k * FermatInverse(k, n), 1, n)
  {
    Fermat(n, k);
    assert Pow(k, n - 1) == k * Pow(k, n - 2);
    CongMul(k, k, FermatInverse(k, n), Pow(k, n - 2), n);
  }

  /** An inverse in range is unique, so every inversion method gives the same. */
  lemma InverseUnique(k: nat, n: nat, x: int, y: int)
    requires Prime(n) && k % n != 0
    requires 0 <= x < n && 0 <= y < n && Cong(k * x, 1, n) && Cong(k * y, 1, n)
    ensures x == y
  {
    CancelFactor(n, k, x, y);
    CongSmall(x, y, n);
  }

  /** Nonzero scalars below the order do not reach the neutral point. */
  lemma NotNeutral<Point(!new)>(c: Curve<Point>, k: nat)
    requires GroupOfPrimeOrder(c) && 1 <= k < c.n
    ensures Mul(c, k, c.base) != c.zero
  {
    SmallMod(k, c.n);
    FermatInverseCorrect(k, c.n);
    var inv := FermatInverse(k, c.n);
    MulMul(c, inv, k, c.base);
    assert inv * k == k * inv;
    MulCong(c, inv * k, 1);
    assert NeutralAt(c, c.base) && Mul(c, 1, c.base) == c.add(c.base, Mul(c, 0, c.base));
    MulZero(c, inv);
  }

  // ------------------------------------------------------------- hashToInt

  /** hashToInt: the integer of the leading order-sized octets, shifted right by the
      excess bits. */
  function HashToInt(hash: seq<byte>, n: nat): nat {
    Truncated(hash, BitLen(n))
  }

  function Truncated(hash: seq<byte>, orderBits: nat): nat {
    var orderBytes := (orderBits + 7) / 8;
    var h := hash[..Min(orderBytes, |hash|)];
    var excess := |h| * 8 - orderBits;
    if excess > 0 then Rsh(Os2ip(h), excess) else Os2ip(h)
  }

  /** big.Int.Rsh for a non-negative integer. */
  function Rsh(x: nat, k: nat): nat
    decreases k
  {
    if k == 0 then x else Rsh(x / 2, k - 1)
  }

  /** The low k bits of m, most significant first. */
  function BitsOf(m: nat, k: nat): (s: seq<Bit>)
    ensures |s| == k
    decreases k, m
  {
    if k == 0 then [] else BitsOf(m / 2, k - 1) + [m % 2]
  }

  /** The bits of an octet string, in order. */
  function Bits(h: seq<byte>): (s: seq<Bit>)
    ensures |s| == 8 * |h|
  {
    if h == [] then [] else Bits(h[..|h| - 1]) + BitsOf(h[|h| - 1], 8)
  }

  /** The integer a bit string denotes. */
  function FromBits(s: seq<Bit>): nat {
    if s == [] then 0 else FromBits(s[..|s| - 1]) * 2 + s[|s| - 1]
  }

  lemma {:induction false} FromBitsConcat(a: seq<Bit>, m: nat, k: nat)
    requires m < Pow(2, k)
    ensures FromBits(a + BitsOf(m, k)) == Pow(2, k) * FromBits(a) + m
    decreases k
  {
    if k == 0 {
      assert a + BitsOf(m, k) == a;
    } else {
      var s := a + BitsOf(m, k);
      assert s[..|s| - 1] == a + BitsOf(m / 2, k - 1);
      FromBitsConcat(a, m / 2, k - 1);
      TwiceProduct(Pow(2, k - 1), FromBits(a));
    }
  }

  lemma TwiceProduct(x: int, y: int)
    ensures (2 * x) * y == 2 * (x * y)
  {
  }

  lemma {:induction false} FromBitsOfBytes(h: seq<byte>)
    ensures FromBits(Bits(h)) == Os2ip(h)
  {
    if h != [] {
      FromBitsOfBytes(h[..|h| - 1]);
      FromBitsOctet(Bits(h[..|h| - 1]), h[|h| - 1]);
    }
  }

  lemma FromBitsOctet(a: seq<Bit>, b: byte)
    ensures FromBits(a + BitsOf(b, 8)) == FromBits(a) * 256 + b
  {
    Pow256(1);
    FromBitsConcat(a, b, 8);
  }

  /** A prefix of the octets is a prefix of the bits. */
  lemma {:induction false} BitsPrefix(h: seq<byte>, k: nat)
    requires k <= |h|
    ensures Bits(h[..k]) == Bits(h)[..8 * k]
    decreases |h|
  {
    if k == |h| {
      assert h[..k] == h;
    } else {
      var t := h[..|h| - 1];
      BitsPrefix(t, k);
      assert t[..k] == h[..k];
      assert Bits(h)[..8 * k] == Bits(t)[..8 * k];
    }
  }

  /** Dropping the last j bits is a right shift by j. */
  lemma {:induction false} DropBits(s: seq<Bit>, j: nat)
    requires j <= |s|
    ensures FromBits(s[..|s| - j]) == Rsh(FromBits(s), j)
    decreases j
  {
    if j == 0 {
      assert s[..|s|] == s;
    } else {
      var t := s[..|s| - 1];
      DropBits(t, j - 1);
      assert t[..|t| - (j - 1)] == s[..|s| - j];
    }
  }

  lemma PrefixOfPrefix(s: seq<Bit>, t: seq<Bit>, bits: nat)
    requires bits <= |t| <= |s| && t == s[..|t|]
    ensures FromBits(s[..bits]) == Rsh(FromBits(t), |t| - bits)
  {
    DropBits(t, |t| - bits);
    assert t[..bits] == s[..bits];
  }

  /** The leading bits of the hash, from its leading octets. */
  lemma LeadingBits(hash: seq<byte>, k: nat, bits: nat)
    requires k <= |hash| && bits <= 8 * k
    ensures FromBits(Bits(hash)[..bits]) == Rsh(Os2ip(hash[..k]), 8 * k - bits)
  {
    FromBitsOfBytes(hash[..k]);
    BitsPrefix(hash, k);
    PrefixOfPrefix(Bits(hash), Bits(hash[..k]), bits);
  }

  /** hashToInt takes the leftmost min(orderBits, 8 * len) bits of the hash. */
  lemma HashToIntIsLeftmostBits(hash: seq<byte>, n: nat)
    ensures HashToInt(hash, n) == FromBits(Bits(hash)[..Min(BitLen(n), 8 * |hash|)])
  {
    TruncatedIsLeftmostBits(hash, BitLen(n));
  }

  lemma TruncatedIsLeftmostBits(hash: seq<byte>, orderBits: nat)
    ensures Truncated(hash, orderBits) == FromBits(Bits(hash)[..Min(orderBits, 8 * |hash|)])
  {
    var k, bits := Min((orderBits + 7) / 8, |hash|), Min(orderBits, 8 * |hash|);
    TruncatedIsShift(hash, orderBits, k, bits);
    LeadingBits(hash, k, bits);
  }

  lemma TruncatedIsShift(hash: seq<byte>, orderBits: nat, k: nat, bits: nat)
    requires k == Min((orderBits + 7) / 8, |hash|) && bits == Min(orderBits, 8 * |hash|)
    ensures bits <= 8 * k && Truncated(hash, orderBits) == Rsh(Os2ip(hash[..k]), 8 * k - bits)
  {
    KeptBits(orderBits, |hash|);
    assert |hash[..k]| == k;
  }

  /** The kept octets hold the kept bits; the shift removes the surplus. */
  lemma KeptBits(orderBits: nat, len: nat)
    ensures var k, bits := Min((orderBits + 7) / 8, len), Min(orderBits, 8 * len);
            bits <= 8 * k && bits == Min(orderBits, 8 * k)
  {
  }

  function Min(a: nat, b: nat): nat {
    if a < b then a else b
  }

  // --------------------------------------------------- signing and verifying

  /** Section 4.1.4 of SEC 1: verification of (r, s) against the public point and the
      hash's integer. */
  predicate Verifies<Point(==)>(c: Curve<Point>, public: Point, e: nat, r: int, s: int)
    requires 2 <= c.n
  {
    && 1 <= r < c.n
    && 1 <= s < c.n
    && var w := FermatInverse(s, c.n);
       var u1, u2 := (e * w) % c.n, (r * w) % c.n;
       var point := c.add(Mul(c, u1, c.base), Mul(c, u2, public));
       point != c.zero && c.xcoord(point) % c.n == r
  }

  /** The equation s * k == d * r + e behind a signature, multiplied by the inverse of s. */
  lemma SigningEquation(n: nat, t: int, k: nat, kInv: int, s: int, w: int)
    requires 0 < n && Cong(k * kInv, 1, n) && Cong(s, t * kInv, n) && Cong(s * w, 1, n)
    ensures Cong(t * w, k, n)
  {
    CongMul(s, t * kInv, k, k, n);
    assert t * kInv * k == t * (k * kInv);
    CongMul(t, t, k * kInv, 1, n);
    CongMul(s * k, t, w, w, n);
    assert s * k * w == k * (s * w);
    CongMul(k, k, s * w, 1, n);
  }

  /** The scalars of the verification equation combine to the nonce. */
  lemma VerificationScalar(n: nat, d: nat, e: nat, k: nat, kInv: int, r: nat, s: nat, w: nat)
    requires 0 < n && Cong(k * kInv, 1, n) && s == ((d * r + e) * kInv) % n && Cong(s * w, 1, n)
    ensures Cong((e * w) % n + ((r * w) % n) * d, k, n)
  {
    CongMod((d * r + e) * kInv, n);
    SigningEquation(n, d * r + e, k, kInv, s, w);
    CongMod(e * w, n);
    CongMod(r * w, n);
    CongMul((r * w) % n, r * w, d, d, n);
    CongAdd((e * w) % n, e * w, ((r * w) % n) * d, r * w * d, n);
    assert e * w + r * w * d == (d * r + e) * w;
  }

  /** A precomputed pair: the inverse of a nonce k and the x-coordinate of k * G. */
  datatype Nonce = Nonce(kInv: int, r: nat)

  ghost predicate NonceFor<Point>(c: Curve<Point>, nonce: Nonce, k: nat)
    requires 0 < c.n
  {
    && 1 <= k < c.n
    && Cong(k * nonce.kInv, 1, c.n)
    && nonce.r == c.xcoord(Mul(c, k, c.base)) % c.n
    && nonce.r != 0
  }

  /** A signature made from any nonce verifies. */
  lemma SignatureVerifies<Point(!new)>(c: Curve<Point>, d: nat, e: nat, k: nat, nonce: Nonce, s: nat)
    requires GroupOfPrimeOrder(c) && NonceFor(c, nonce, k)
    requires s == ((d * nonce.r + e) * nonce.kInv) % c.n && s != 0
    ensures Verifies(c, Mul(c, d, c.base), e, nonce.r, s)
  {
    SmallMod(s, c.n);
    FermatInverseCorrect(s, c.n);
    var w := FermatInverse(s, c.n);
    VerificationScalar(c.n, d, e, k, nonce.kInv, nonce.r, s, w);
    var u1, u2 := (e * w) % c.n, (nonce.r * w) % c.n;
    MulMul(c, u2, d, c.base);
    MulAdd(c, u1, u2 * d, c.base);
    MulCong(c, u1 + u2 * d, k);
    NotNeutral(c, k);
  }

  ghost predicate ValidNonce<Point>(c: Curve<Point>, nonce: Nonce)
    requires 0 < c.n
  {
    exists k :: NonceFor(c, nonce, k)
  }

  lemma SignatureFromNonce<Point(!new)>(c: Curve<Point>, d: nat, e: nat, nonce: Nonce, s: nat)
    requires GroupOfPrimeOrder(c) && ValidNonce(c, nonce)
    requires s == ((d * nonce.r + e) * nonce.kInv) % c.n && s != 0
    ensures Verifies(c, Mul(c, d, c.base), e, nonce.r, s)
  {
    var k :| NonceFor(c, nonce, k);
    SignatureVerifies(c, d, e, k, nonce, s);
  }

  ghost predicate AllValid<Point>(c: Curve<Point>, nonces: multiset<Nonce>)
    requires 0 < c.n
  {
    forall x :: x in nonces ==> ValidNonce(c, x)
  }

  /** randFieldElement: an integer of the random stream reduced into [1, n-1]. */
  function FieldElement(draw: nat, n: nat): (k: nat)
    requires 2 <= n
    ensures 1 <= k < n && Cong(k, draw + 1, n - 1)
  {
    CongMod(draw, n - 1);
    CongAdd(draw % (n - 1), draw, 1, 1, n - 1);
    draw % (n - 1) + 1
  }

  /** Every scalar from 1 to n - 1 is drawn by some integer, and integers that differ by
      less than n - 1 draw different ones. */
  lemma FieldElementReaches(n: nat, k: nat, x: nat, y: nat)
    requires 2 <= n && 1 <= k < n && x < y < x + (n - 1)
    ensures FieldElement(k - 1, n) == k
    ensures FieldElement(x, n) != FieldElement(y, n)
  {
    SmallMod(k - 1, n - 1);
    if FieldElement(x, n) == FieldElement(y, n) {
      CongDifference(x + 1, y + 1, n - 1);
      CongDifference(y + 1, x + 1, n - 1);
      SmallMod(y - x, n - 1);
    }
  }

  /** The draws that genRandForSign does not throw away. */
  predicate Usable<Point>(c: Curve<Point>, draw: nat)
    requires 2 <= c.n
  {
    c.xcoord(Mul(c, FieldElement(draw, c.n), c.base)) % c.n != 0
  }

  /** The nonce is that of the first usable draw, with Fermat's inverse, and rest are the
      draws after it. */
  ghost predicate FirstUsable<Point>(c: Curve<Point>, draws: seq<nat>, nonce: Nonce, rest: seq<nat>)
    requires 2 <= c.n
  {
    && |rest| < |draws| && rest == draws[|draws| - |rest|..]
    && (forall x :: x in draws[..|draws| - |rest| - 1] ==> !Usable(c, x))
    && var k := FieldElement(draws[|draws| - |rest| - 1], c.n);
       NonceFor(c, nonce, k) && nonce.kInv == FermatInverse(k, c.n)
  }

  datatype Error = ErrZeroParam | ErrRand | MismatchedCurves

  /** genRandForSign: the nonce of the first usable draw. draws are the integers read
      from the random stream; running out of them is a failure of the stream, and without
      any the stream's key cannot be read either. A curve's own inversion gives the same
      inverse as Fermat's. */
  method GenRandForSign<Point(!new)>(c: Curve<Point>, draws: seq<nat>)
    returns (res: Result<Nonce, Error>, rest: seq<nat>)
    requires c.n == 0 || GroupOfPrimeOrder(c)
    ensures c.n == 0 ==> res == Err(if draws == [] then ErrRand else ErrZeroParam) && rest == draws
    ensures 0 < c.n && res.Err? ==> res.error == ErrRand && rest == [] && forall x :: x in draws ==> !Usable(c, x)
    ensures 0 < c.n && res.Ok? ==> FirstUsable(c, draws, res.value, rest)
  {
    if draws == [] {
      return Err(ErrRand), [];
    }
    if c.n == 0 {
      return Err(ErrZeroParam), draws;
    }
    var i := 0;
    while i < |draws|
      invariant 0 <= i <= |draws|
      invariant forall x :: x in draws[..i] ==> !Usable(c, x)
    {
      var k := FieldElement(draws[i], c.n);
      SmallMod(k, c.n);
      FermatInverseCorrect(k, c.n);
      var kInv;
      if c.fastInverse {
        assert 0 <= FermatInverse(k, c.n) < c.n && Cong(k * FermatInverse(k, c.n), 1, c.n);
        kInv :| 0 <= kInv < c.n && Cong(k * kInv, 1, c.n);
        InverseUnique(k, c.n, kInv, FermatInverse(k, c.n));
      } else {
        kInv := FermatInverse(k, c.n);
      }
      var r := c.xcoord(Mul(c, k, c.base));
      r := r % c.n;
      assert draws[..i + 1] == draws[..i] + [draws[i]];
      i := i + 1;
      if r != 0 {
        return Ok(Nonce(kInv, r)), draws[i..];
      }
    }
    assert draws[..i] == draws;
    return Err(ErrRand), [];
  }

  /** genRandForSign on a curve with a proper order. */
  method NewNonce<Point(!new)>(c: Curve<Point>, draws: seq<nat>) returns (res: Result<Nonce, Error>, rest: seq<nat>)
    requires GroupOfPrimeOrder(c)
    ensures res.Err? ==> res.error == ErrRand && rest == [] && forall x :: x in draws ==> !Usable(c, x)
    ensures res.Ok? ==> ValidNonce(c, res.value) && FirstUsable(c, draws, res.value, rest)
  {
    res, rest := GenRandForSign(c, draws);
  }

  // ------------------------------------------------------------- RandBuffer

  /** The stack of precomputed nonces. generated and handedOut record, for the
      specification, every nonce made and every nonce returned by Gen. */
  class RandBuffer<Point(!new)> {
    var buffer: array<Nonce>
    var elems: nat
    const crv: Curve<Point>
    ghost var generated: multiset<Nonce>
    ghost var handedOut: multiset<Nonce>

    /** Every generated nonce is in the buffer or has been handed out, and not both;
        slots above elems may still hold old values. */
    ghost predicate Valid()
      reads this, buffer
    {
      && GroupOfPrimeOrder(crv)
      && elems <= buffer.Length
      && generated == multiset(buffer[..elems]) + handedOut
      && AllValid(crv, generated)
    }

    ghost function Contents(): seq<Nonce>
      requires Valid()
      reads this, buffer
    {
      buffer[..elems]
    }

    constructor (cap: nat, curve: Curve<Point>)
      requires GroupOfPrimeOrder(curve)
      ensures Valid() && Contents() == [] && buffer.Length == cap && fresh(buffer)
      ensures crv == curve && generated == handedOut == multiset{}
    {
      buffer := new Nonce[cap](_ => Nonce(0, 0));
      elems := 0;
      crv := curve;
      generated, handedOut := multiset{}, multiset{};
    }

    method Size() returns (n: nat)
      requires Valid()
      ensures n == |Contents()|
    {
      n := elems;
    }

    method IsFull() returns (full: bool)
      requires Valid()
      ensures full <==> |Contents()| == buffer.Length
    {
      full := elems == buffer.Length;
    }

    /** Stores a new nonce in the first free slot. */
    method Push(x: Nonce)
      requires Valid() && elems < buffer.Length && ValidNonce(crv, x)
      modifies this, buffer
      ensures Valid() && buffer == old(buffer) && handedOut == old(handedOut)
      ensures Contents() == old(Contents()) + [x]
      ensures generated == old(generated) + multiset{x}
    {
      ghost var was := buffer[..elems];
      buffer[elems] := x;
      elems := elems + 1;
      assert buffer[..elems] == was + [x];
      assert multiset(was + [x]) == multiset(was) + multiset{x};
      generated := generated + multiset{x};
    }

    /** Fill pushes one new nonce; it does nothing when the buffer is full. */
    method Fill(draws: seq<nat>) returns (err: Option<Error>, rest: seq<nat>)
      requires Valid()
      modifies this, buffer
      ensures Valid() && buffer == old(buffer) && handedOut == old(handedOut)
      ensures old(elems) == buffer.Length ==> err.None? && rest == draws
      ensures err.Some? || old(elems) == buffer.Length ==>
                Contents() == old(Contents()) && generated == old(generated)
      ensures err.None? && old(elems) < buffer.Length ==>
                && elems == old(elems) + 1 && Contents()[..old(elems)] == old(Contents())
                && generated == old(generated) + multiset{Contents()[old(elems)]}
                && FirstUsable(crv, draws, Contents()[old(elems)], rest)
    {
      var full := IsFull();
      if full {
        return None, draws;
      }
      var res;
      res, rest := NewNonce(crv, draws);
      if res.Err? {
        return Some(res.error), rest;
      }
      Push(res.value);
      assert |Contents()| == elems;
      return None, rest;
    }

    /** gen pops the last nonce, or makes a new one when the buffer is empty. */
    method Gen(draws: seq<nat>) returns (res: Result<Nonce, Error>, rest: seq<nat>)
      requires Valid()
      modifies this
      ensures Valid() && elems <= old(elems) && buffer == old(buffer) && buffer[..] == old(buffer[..])
      ensures old(elems) > 0 ==>
                && res == Ok(old(Contents())[old(elems) - 1])
                && Contents() == old(Contents())[..old(elems) - 1]
                && generated == old(generated) && rest == draws
      ensures old(elems) == 0 ==>
                && Contents() == []
                && generated == old(generated) + (if res.Ok? then multiset{res.value} else multiset{})
                && (res.Ok? ==> FirstUsable(crv, draws, res.value, rest))
      ensures handedOut == old(handedOut) + (if res.Ok? then multiset{res.value} else multiset{})
      ensures res.Err? ==> res.error == ErrRand
      ensures res.Ok? ==> ValidNonce(crv, res.value) && elems + |rest| < old(elems) + |draws|
    {
      if elems == 0 {
        res, rest := NewNonce(crv, draws);
        if res.Ok? {
          generated := generated + multiset{res.value};
          handedOut := handedOut + multiset{res.value};
        }
        return;
      }
      var ret := buffer[elems - 1];
      assert buffer[..elems] == buffer[..elems - 1] + [ret];
      assert ret in generated;
      elems := elems - 1;
      handedOut := handedOut + multiset{ret};
      return Ok(ret), draws;
    }
  }

  datatype PrivateKey<!Point> = PrivateKey(curve: Curve<Point>, d: nat)

  /** The second half of a signature made from a nonce. */
  function SigningValue(n: nat, d: nat, e: nat, nonce: Nonce): nat
    requires 0 < n
  {
    ((d * nonce.r + e) * nonce.kInv) % n
  }

  predicate AllZero(n: nat, d: nat, e: nat, nonces: seq<Nonce>)
    requires 0 < n
  {
    forall i :: 0 <= i < |nonces| ==> SigningValue(n, d, e, nonces[i]) == 0
  }

  lemma OneMoreZero(n: nat, d: nat, e: nat, nonces: seq<Nonce>, x: Nonce)
    requires 0 < n && AllZero(n, d, e, nonces) && SigningValue(n, d, e, x) == 0
    ensures AllZero(n, d, e, nonces + [x]) && multiset(nonces + [x]) == multiset(nonces) + multiset{x}
  {
  }

  /** The nonces taken come off the top of the buffer, the newest first, while it lasts. */
  ghost predicate FromTop(contents: seq<Nonce>, taken: seq<Nonce>, left: seq<Nonce>) {
    && left <= contents
    && |left| == (if |taken| <= |contents| then |contents| - |taken| else 0)
    && forall i :: 0 <= i < |taken| && i < |contents| ==> taken[i] == contents[|contents| - 1 - i]
  }

  /** x came off the top of a buffer, or was made because it was empty. */
  predicate Popped(left: seq<Nonce>, x: Nonce, left': seq<Nonce>) {
    if left != [] then x == left[|left| - 1] && left' == left[..|left| - 1] else left' == []
  }

  lemma FromTopSnoc(contents: seq<Nonce>, taken: seq<Nonce>, left: seq<Nonce>, x: Nonce, left': seq<Nonce>)
    requires FromTop(contents, taken, left)
    requires Popped(left, x, left')
    ensures FromTop(contents, taken + [x], left')
  {
  }

  function Taken(skipped: seq<Nonce>, used: Option<Nonce>): seq<Nonce> {
    if used.Some? then skipped + [used.value] else skipped
  }

  /** The loop of sign has gone on past the skipped nonces: contents and handed are what the
      buffer held and had handed out before it, left and gone what it does now. */
  ghost predicate Spent(n: nat, d: nat, e: nat, contents: seq<Nonce>, handed: multiset<Nonce>,
                        left: seq<Nonce>, gone: multiset<Nonce>, skipped: seq<Nonce>)
    requires 0 < n
  {
    gone == handed + multiset(skipped) && AllZero(n, d, e, skipped) && FromTop(contents, skipped, left)
  }

  lemma SpentOne(n: nat, d: nat, e: nat, contents: seq<Nonce>, handed: multiset<Nonce>, left: seq<Nonce>,
                 gone: multiset<Nonce>, skipped: seq<Nonce>, x: Nonce, left': seq<Nonce>)
    requires 0 < n && Spent(n, d, e, contents, handed, left, gone, skipped)
    requires Popped(left, x, left')
    ensures FromTop(contents, skipped + [x], left')
    ensures SigningValue(n, d, e, x) == 0 ==>
              Spent(n, d, e, contents, handed, left', gone + multiset{x}, skipped + [x])
  {
    FromTopSnoc(contents, skipped, left, x, left');
    if SigningValue(n, d, e, x) == 0 {
      OneMoreZero(n, d, e, skipped, x);
    }
  }

  /** One turn of the loop: a nonce and the value it gives. */
  method TakeOne<Point(!new)>(d: nat, e: nat, provider: RandBuffer<Point>, draws: seq<nat>)
    returns (res: Result<(Nonce, nat), Error>, rest: seq<nat>)
    requires provider.Valid()
    modifies provider
    ensures provider.Valid() && provider.buffer == old(provider.buffer)
    ensures res.Err? ==>
              res.error == ErrRand && provider.handedOut == old(provider.handedOut) && provider.Contents() == old(provider.Contents())
    ensures res.Ok? ==>
              && provider.handedOut == old(provider.handedOut) + multiset{res.value.0}
              && Popped(old(provider.Contents()), res.value.0, provider.Contents())
              && ValidNonce(provider.crv, res.value.0)
              && res.value.1 == SigningValue(provider.crv.n, d, e, res.value.0)
              && provider.elems + |rest| < old(provider.elems) + |draws|
  {
    var nonce;
    nonce, rest := provider.Gen(draws);
    if nonce.Err? {
      return Err(nonce.error), rest;
    }
    return Ok((nonce.value, SigningValue(provider.crv.n, d, e, nonce.value))), rest;
  }

  /** The loop of sign: nonces are taken until one gives a nonzero value. skipped lists
      the nonces taken before it. */
  method TakeNonce<Point(!new)>(d: nat, e: nat, provider: RandBuffer<Point>, draws: seq<nat>)
    returns (res: Result<(Nonce, nat), Error>, rest: seq<nat>, ghost skipped: seq<Nonce>)
    requires provider.Valid()
    modifies provider
    ensures provider.Valid() && provider.buffer == old(provider.buffer)
    ensures provider.handedOut == old(provider.handedOut) + multiset(skipped)
                                  + (if res.Ok? then multiset{res.value.0} else multiset{})
    ensures AllZero(provider.crv.n, d, e, skipped)
    ensures FromTop(old(provider.Contents()), Taken(skipped, if res.Ok? then Some(res.value.0) else None), provider.Contents())
    ensures res.Err? ==> res.error == ErrRand
    ensures res.Ok? ==>
              && ValidNonce(provider.crv, res.value.0)
              && res.value.1 == SigningValue(provider.crv.n, d, e, res.value.0) != 0
  {
    rest, skipped := draws, [];
    ghost var contents, handed := provider.Contents(), provider.handedOut;
    while true
      invariant provider.Valid() && provider.buffer == old(provider.buffer)
      invariant Spent(provider.crv.n, d, e, contents, handed, provider.Contents(), provider.handedOut, skipped)
      decreases provider.elems + |rest|
    {
      ghost var left, gone := provider.Contents(), provider.handedOut;
      res, rest := TakeOne(d, e, provider, rest);
      if res.Err? {
        return;
      }
      SpentOne(provider.crv.n, d, e, contents, handed, left, gone, skipped, res.value.0, provider.Contents());
      if res.value.1 != 0 {
        return;
      }
      skipped := skipped + [res.value.0];
    }
  }

  /** sign: a signature returned verifies; it is made from one nonce, and every nonce
      passed over on the way had given zero. */
  method Sign<Point(!new, ==)>(priv: PrivateKey<Point>, hash: seq<byte>, provider: RandBuffer<Point>, draws: seq<nat>)
    returns (res: Result<(nat, nat), Error>, rest: seq<nat>, ghost skipped: seq<Nonce>, ghost used: Option<Nonce>)
    requires provider.Valid()
    requires priv.curve.name == provider.crv.name ==> priv.curve == provider.crv
    modifies provider
    ensures provider.Valid() && provider.buffer == old(provider.buffer)
    ensures provider.handedOut == old(provider.handedOut) + multiset(skipped)
                                  + (if used.Some? then multiset{used.value} else multiset{})
    ensures res == Err(MismatchedCurves) <==> priv.curve.name != provider.crv.name
    ensures AllZero(provider.crv.n, priv.d, HashToInt(hash, provider.crv.n), skipped)
    ensures FromTop(old(provider.Contents()), Taken(skipped, used), provider.Contents())
    ensures res.Ok? <==> used.Some?
    ensures res.Ok? ==>
              && used.value.r == res.value.0
              && 1 <= res.value.1 < priv.curve.n
              && Verifies(priv.curve, Mul(priv.curve, priv.d, priv.curve.base),
                          HashToInt(hash, priv.curve.n), res.value.0, res.value.1)
  {
    skipped, used := [], None;
    if priv.curve.name != provider.crv.name {
      return Err(MismatchedCurves), draws, skipped, used;
    }
    var e := HashToInt(hash, priv.curve.n);
    var taken;
    taken, rest, skipped := TakeNonce(priv.d, e, provider, draws);
    if taken.Err? {
      return Err(taken.error), rest, skipped, used;
    }
    SignatureFromNonce(priv.curve, priv.d, e, taken.value.0, taken.value.1);
    return Ok((taken.value.0.r, taken.value.1)), rest, skipped, Some(taken.value.0);
  }
}
