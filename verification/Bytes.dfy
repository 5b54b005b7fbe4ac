/** Octet strings and the integers they denote (sections 4.1 and 4.2 of RFC 8017). */
module Bytes {
  import opened Arithmetic

  type byte = b: int | 0 <= b < 256

  type Bit = b: int | 0 <= b <= 1

  /** The integer of a big-endian octet string; big.Int.SetBytes. */
  function Os2ip(s: seq<byte>): nat {
    if s == [] then 0 else Os2ip(s[..|s| - 1]) * 256 + s[|s| - 1]
  }

  /** Big-endian: the first octet counts most. */
  lemma BigEndian(s: seq<byte>, b: byte)
    ensures Os2ip([b]) == b && Os2ip(s + [b]) == Os2ip(s) * 256 + b
  {
    assert [b][..0] == [];
    assert (s + [b])[..|s|] == s;
  }

  /** The low k octets of m, big-endian. */
  function I2osp(m: nat, k: nat): (s: seq<byte>)
    ensures |s| == k
    decreases k
  {
    if k == 0 then [] else I2osp(m / 256, k - 1) + [m % 256]
  }

  /** The shortest big-endian octet string of m; big.Int.Bytes. */
  function MinBytes(m: nat): seq<byte> {
    if m == 0 then [] else MinBytes(m / 256) + [m % 256]
  }

  function Zeros(n: nat): (s: seq<byte>)
    ensures |s| == n && forall i :: 0 <= i < n ==> s[i] == 0
  {
    seq(n, _ => 0)
  }

  lemma {:induction false} Os2ipBound(s: seq<byte>)
    ensures Os2ip(s) < Pow(256, |s|)
  {
    if s != [] {
      Os2ipBound(s[..|s| - 1]);
    }
  }

  lemma {:induction false} Os2ipConcat(a: seq<byte>, b: seq<byte>)
    ensures Os2ip(a + b) == Os2ip(a) * Pow(256, |b|) + Os2ip(b)
  {
    if b == [] {
      assert a + b == a;
    } else {
      var b' := b[..|b| - 1];
      assert (a + b)[..|a + b| - 1] == a + b';
      Os2ipConcat(a, b');
      assert (Os2ip(a) * Pow(256, |b'|)) * 256 == Os2ip(a) * Pow(256, |b|);
    }
  }

  lemma {:induction false} Os2ipZeros(n: nat)
    ensures Os2ip(Zeros(n)) == 0
  {
    if n > 0 {
      assert Zeros(n)[..n - 1] == Zeros(n - 1);
      Os2ipZeros(n - 1);
    }
  }

  /** Section 4.1 of RFC 8017: the conversion is exact when m fits in k octets. */
  lemma {:induction false} I2ospExact(m: nat, k: nat)
    requires m < Pow(256, k)
    ensures Os2ip(I2osp(m, k)) == m
    decreases k
  {
    if k > 0 {
      assert m / 256 < Pow(256, k - 1);
      I2ospExact(m / 256, k - 1);
      assert I2osp(m, k)[..k - 1] == I2osp(m / 256, k - 1);
    }
  }

  /** The k octets of a k-octet string's integer are that string. */
  lemma {:induction false} Os2ipExact(s: seq<byte>)
    ensures I2osp(Os2ip(s), |s|) == s
  {
    if s != [] {
      var t := s[..|s| - 1];
      DivModUnique(Os2ip(s), 256, Os2ip(t), s[|s| - 1]);
      Os2ipExact(t);
      assert s == t + [s[|s| - 1]];
    }
  }

  /** The shortest form denotes m and is no longer than any form that fits. */
  lemma {:induction false} MinBytesExact(m: nat, k: nat)
    requires m < Pow(256, k)
    ensures Os2ip(MinBytes(m)) == m && |MinBytes(m)| <= k
    decreases m
  {
    if m > 0 {
      assert k > 0;
      assert m / 256 < Pow(256, k - 1);
      MinBytesExact(m / 256, k - 1);
      assert MinBytes(m)[..|MinBytes(m)| - 1] == MinBytes(m / 256);
    }
  }

  /** Zeros in front of the shortest form give the k-octet form. */
  lemma PaddedMinBytes(m: nat, k: nat)
    requires m < Pow(256, k)
    ensures |MinBytes(m)| <= k
    ensures Zeros(k - |MinBytes(m)|) + MinBytes(m) == I2osp(m, k)
  {
    MinBytesExact(m, k);
    var z := Zeros(k - |MinBytes(m)|);
    Os2ipConcat(z, MinBytes(m));
    Os2ipZeros(|z|);
    Os2ipExact(z + MinBytes(m));
  }

  // -------------------------------------------------------------- bit length

  /** big.Int.BitLen. */
  function BitLen(n: nat): nat {
    if n == 0 then 0 else BitLen(n / 2) + 1
  }

  lemma {:induction false} BitLenBounds(n: nat)
    ensures n < Pow(2, BitLen(n))
    ensures 0 < n ==> 0 < BitLen(n) && Pow(2, BitLen(n) - 1) <= n
  {
    if n > 0 {
      BitLenBounds(n / 2);
      if n / 2 > 0 {
        assert Pow(2, BitLen(n) - 1) == 2 * Pow(2, BitLen(n / 2) - 1);
      }
    }
  }

  lemma {:induction false} Pow256(k: nat)
    ensures Pow(256, k) == Pow(2, 8 * k)
  {
    if k > 0 {
      Pow256(k - 1);
      PowAdd(2, 8, 8 * (k - 1));
      assert Pow(2, 8) == 256 by {
        assert Pow(2, 4) == 16;
        PowAdd(2, 4, 4);
      }
    }
  }

  /** The number of octets of n: n fits in that many and in no fewer. */
  function OctetLen(n: nat): (k: nat)
    ensures n < Pow(256, k)
    ensures 0 < k ==> Pow(256, k - 1) <= n
  {
    var k := (BitLen(n) + 7) / 8;
    BitLenBounds(n);
    Pow256(k);
    PowMonotone(2, BitLen(n), 8 * k);
    if k > 0 then
      Pow256(k - 1);
      PowMonotone(2, 8 * (k - 1), BitLen(n) - 1);
      k
    else k
  }
}
