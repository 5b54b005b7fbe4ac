/** Removal of PKCS #1 v1.5 encryption padding by the client (client/keys.go). */
module Pkcs1 {
  import opened Wrappers
  import opened Arithmetic
  import opened Bytes
  import Rsa

  datatype Error = ErrDecryption | IndexOutOfRange

  // ------------------------------------------------- crypto/subtle, on values

  const TWO_TO_31: int := 0x8000_0000
  const TWO_TO_32: int := 0x1_0000_0000

  /** Conversion to int32, which keeps the low 32 bits. */
  function Int32(x: int): int {
    (x + TWO_TO_31) % TWO_TO_32 - TWO_TO_31
  }

  function ByteEq(x: byte, y: byte): Bit {
    if x == y then 1 else 0
  }

  function Select(v: Bit, x: int, y: int): int {
    if v == 1 then x else y
  }

  /** ConstantTimeLessOrEq: the sign of the 32-bit difference x - y - 1. */
  function LessOrEq(x: int, y: int): Bit {
    if Int32(Int32(x) - Int32(y) - 1) < 0 then 1 else 0
  }

  function Eq(x: int, y: int): Bit {
    if x == y then 1 else 0
  }

  /** The 32-bit comparison holds exactly when y - x, reduced modulo 2^32, has its top
      bit clear. */
  lemma LessOrEqExact(x: int, y: int)
    ensures LessOrEq(x, y) == 1 <==> (y - x) % 0x1_0000_0000 < 0x8000_0000
  {
  }

  // ------------------------------------------------------------ specification

  /** The encoded message of section 7.2.1 of RFC 8017. */
  function Padded(ps: seq<byte>, m: seq<byte>): seq<byte> {
    [0, 2] + ps + [0] + m
  }

  /** A padding string: nonzero octets, at least eight of them. */
  ghost predicate PaddingString(ps: seq<byte>) {
    8 <= |ps| && 0 !in ps
  }

  /** em is a padding of m as section 7.2 of RFC 8017 defines it. */
  ghost predicate IsPadded(em: seq<byte>, m: seq<byte>) {
    exists ps :: PaddingString(ps) && em == Padded(ps, m)
  }

  /** The lengths of padding string that the 32-bit comparison lets through. */
  predicate LongEnough(n: int) {
    (n - 8) % TWO_TO_32 < TWO_TO_31
  }

  /** em is a padding of m by nonzero octets of a length the comparison lets through. */
  ghost predicate Accepted(em: seq<byte>, m: seq<byte>) {
    exists ps :: 0 !in ps && LongEnough(|ps|) && em == Padded(ps, m)
  }

  /** The index of the first zero octet at or after i. */
  function FirstZero(em: seq<byte>, i: nat): (z: nat)
    requires i <= |em|
    ensures i <= z <= |em|
    ensures z < |em| ==> em[z] == 0
    ensures forall j :: i <= j < z ==> em[j] != 0
    decreases |em| - i
  {
    if i == |em| || em[i] == 0 then i else FirstZero(em, i + 1)
  }

  /** A padded message determines its padding string and its message. */
  lemma PaddedSplit(em: seq<byte>, ps: seq<byte>, m: seq<byte>)
    requires 0 !in ps && em == Padded(ps, m)
    ensures FirstZero(em, 2) == |ps| + 2 < |em| && m == em[|ps| + 3..]
  {
    assert em[|ps| + 2] == 0;
    assert forall j :: 0 <= j < |ps| ==> em[2 + j] == ps[j];
    assert forall j :: 2 <= j < |ps| + 2 ==> em[j] == ps[j - 2];
  }

  lemma SplitPadded(em: seq<byte>)
    requires 2 <= |em| && em[0] == 0 && em[1] == 2 && FirstZero(em, 2) < |em|
    ensures var z := FirstZero(em, 2);
            0 !in em[2..z] && em == Padded(em[2..z], em[z + 1..])
  {
    var z := FirstZero(em, 2);
    FourParts(em, z);
    forall i | 0 <= i < z - 2 ensures em[2..z][i] != 0 {
      assert em[2..z][i] == em[2 + i];
    }
  }

  lemma FourParts(s: seq<byte>, z: nat)
    requires 2 <= z < |s| && s[0] == 0 && s[1] == 2 && s[z] == 0
    ensures s == [0, 2] + s[2..z] + [0] + s[z + 1..]
  {
    assert s[..z] == [0, 2] + s[2..z];
    assert s[z..] == [0] + s[z + 1..];
    assert s == s[..z] + s[z..];
  }

  /** What is accepted is a padding of RFC 8017, and of those exactly the ones whose padding
      string has a length the comparison lets through. */
  lemma AcceptedIff(em: seq<byte>, m: seq<byte>)
    ensures Accepted(em, m) <==> IsPadded(em, m) && 2 <= |em| && LongEnough(FirstZero(em, 2) - 2)
  {
    if Accepted(em, m) {
      AcceptedPadded(em, m);
    }
    if IsPadded(em, m) {
      PaddedAccepted(em, m);
    }
  }

  lemma AcceptedPadded(em: seq<byte>, m: seq<byte>)
    requires Accepted(em, m)
    ensures IsPadded(em, m) && 2 <= |em| && LongEnough(FirstZero(em, 2) - 2)
  {
    var ps :| 0 !in ps && LongEnough(|ps|) && em == Padded(ps, m);
    PaddedSplit(em, ps, m);
    assert 8 <= |ps|;
  }

  lemma PaddedAccepted(em: seq<byte>, m: seq<byte>)
    requires IsPadded(em, m)
    ensures 2 <= |em| && 10 <= FirstZero(em, 2) < |em|
    ensures LongEnough(FirstZero(em, 2) - 2) ==> Accepted(em, m)
  {
    var ps :| PaddingString(ps) && em == Padded(ps, m);
    PaddedSplit(em, ps, m);
  }

  /** Every padding string shorter than 2^31 + 8 octets is let through; the first that is
      not has that length. */
  lemma OverlongPaddingRejected(ps: seq<byte>, m: seq<byte>)
    requires PaddingString(ps)
    ensures IsPadded(Padded(ps, m), m)
    ensures |ps| < 0x8000_0000 + 8 ==> Accepted(Padded(ps, m), m)
    ensures |ps| == 0x8000_0000 + 8 ==> forall m' :: !Accepted(Padded(ps, m), m')
  {
    var em := Padded(ps, m);
    PaddedSplit(em, ps, m);
    forall m' ensures |ps| == TWO_TO_31 + 8 ==> !Accepted(em, m') {
      AcceptedIff(em, m');
    }
  }

  // ------------------------------------------------------------------ methods

  /** parsePKCS1v15: the branch-free scan finds the first zero octet after the header. */
  method Parse(em: seq<byte>) returns (valid: Bit, index: nat, ok: bool)
    ensures ok <==> 2 <= |em|
    ensures ok ==> (valid == 1 <==> exists m :: Accepted(em, m))
    ensures ok && valid == 1 ==> index <= |em| && Accepted(em, em[index..])
  {
    valid, index := 0, 0;
    if |em| < 2 {
      return valid, index, false;
    }
    var firstByteIsZero := ByteEq(em[0], 0);
    var secondByteIsTwo := ByteEq(em[1], 2);
    var lookingForIndex: Bit := 1;
    var i := 2;
    while i < |em|
      invariant 2 <= i <= |em|
      invariant lookingForIndex == 1 ==> index == 0 && FirstZero(em, 2) == FirstZero(em, i)
      invariant lookingForIndex == 0 ==> index == FirstZero(em, 2) < |em|
    {
      var equals0 := ByteEq(em[i], 0);
      index := Select(lookingForIndex * equals0, i, index);
      lookingForIndex := Select(equals0, 0, lookingForIndex);
      i := i + 1;
    }
    var validPS := LessOrEq(2 + 8, index);
    LessOrEqExact(10, index);
    valid := firstByteIsZero * secondByteIsTwo * (1 - lookingForIndex) * validPS;
    ScanMeaning(em, index, valid, lookingForIndex);
    index := Select(valid, index + 1, 0);
    ok := true;
  }

  /** The four conditions the scan collects are acceptance. */
  lemma ScanMeaning(em: seq<byte>, index: nat, valid: Bit, looking: Bit)
    requires 2 <= |em|
    requires looking == 1 <==> FirstZero(em, 2) == |em|
    requires looking == 0 ==> index == FirstZero(em, 2)
    requires valid == 1 <==> em[0] == 0 && em[1] == 2 && looking == 0 && LongEnough(index - 2)
    ensures valid == 1 ==> index < |em| && Accepted(em, em[index + 1..])
    ensures valid == 0 ==> forall m :: !Accepted(em, m)
  {
    if valid == 1 {
      ScanAccepts(em);
    } else {
      forall m ensures !Accepted(em, m) {
        if Accepted(em, m) {
          AcceptedScan(em, m);
        }
      }
    }
  }

  lemma ScanAccepts(em: seq<byte>)
    requires 2 <= |em| && em[0] == 0 && em[1] == 2
    requires FirstZero(em, 2) < |em| && LongEnough(FirstZero(em, 2) - 2)
    ensures Accepted(em, em[FirstZero(em, 2) + 1..])
  {
    SplitPadded(em);
    assert |em[2..FirstZero(em, 2)]| == FirstZero(em, 2) - 2;
  }

  lemma AcceptedScan(em: seq<byte>, m: seq<byte>)
    requires Accepted(em, m)
    ensures 2 <= |em| && em[0] == 0 && em[1] == 2
    ensures FirstZero(em, 2) < |em| && LongEnough(FirstZero(em, 2) - 2)
  {
    var ps :| 0 !in ps && LongEnough(|ps|) && em == Padded(ps, m);
    PaddedSplit(em, ps, m);
  }

  lemma AcceptedUnique(em: seq<byte>, m: seq<byte>, m': seq<byte>)
    requires Accepted(em, m) && Accepted(em, m')
    ensures m == m'
  {
    var ps :| 0 !in ps && LongEnough(|ps|) && em == Padded(ps, m);
    var ps' :| 0 !in ps' && LongEnough(|ps'|) && em == Padded(ps', m');
    PaddedSplit(em, ps, m);
    PaddedSplit(em, ps', m');
  }

  /** stripPKCS1v15 returns m exactly when em is a padding of m as RFC 8017 has it, by a
      string of a length the comparison lets through. */
  method Strip(em: seq<byte>) returns (res: Result<seq<byte>, Error>)
    ensures res == Err(IndexOutOfRange) <==> |em| < 2
    ensures forall m :: res == Ok(m) <==> IsPadded(em, m) && 2 <= |em| && LongEnough(FirstZero(em, 2) - 2)
    ensures |em| <= TWO_TO_31 + 10 ==> forall m :: res == Ok(m) <==> IsPadded(em, m)
  {
    var valid, index, ok := Parse(em);
    forall m ensures Accepted(em, m) <==> IsPadded(em, m) && 2 <= |em| && LongEnough(FirstZero(em, 2) - 2) {
      AcceptedIff(em, m);
    }
    forall m | IsPadded(em, m) ensures 2 <= |em| && 10 <= FirstZero(em, 2) < |em| {
      PaddedAccepted(em, m);
    }
    if !ok {
      return Err(IndexOutOfRange);
    }
    if valid == 0 {
      return Err(ErrDecryption);
    }
    forall m | Accepted(em, m) ensures m == em[index..] {
      AcceptedUnique(em, m, em[index..]);
    }
    return Ok(em[index..]);
  }

  /** subtle.ConstantTimeCopy: x becomes y when v is 1 and is left alone when v is 0. */
  method ConstantTimeCopy(v: Bit, x: array<byte>, y: seq<byte>)
    requires x.Length == |y|
    modifies x
    ensures x[..] == if v == 1 then y else old(x[..])
  {
    var i := 0;
    while i < x.Length
      invariant 0 <= i <= x.Length
      invariant forall j :: 0 <= j < i ==> x[j] == if v == 1 then y[j] else old(x[j])
      invariant forall j :: i <= j < x.Length ==> x[j] == old(x[j])
    {
      x[i] := Select(v, y[i], x[i]);
      i := i + 1;
    }
  }

  /** The conversion keeps the low 32 bits, as a signed number. */
  lemma Int32Range(x: int)
    ensures -0x8000_0000 <= Int32(x) < 0x8000_0000 && (Int32(x) - x) % 0x1_0000_0000 == 0
  {
  }

  lemma SameLowBits(x: int, y: int)
    ensures Int32(x) == Int32(y) <==> Cong(x, y, TWO_TO_32)
  {
    CongDifference(x + TWO_TO_31, y + TWO_TO_31, TWO_TO_32);
    CongDifference(x, y, TWO_TO_32);
  }

  /** em carries a message whose length agrees with the key's in the low 32 bits. */
  ghost predicate Overwrites(em: seq<byte>, keyLen: nat) {
    exists m :: Accepted(em, m) && Cong(|m|, keyLen, TWO_TO_32)
  }

  /** stripPKCS1v15SessionKey: the key is overwritten, with the last octets of em, only
      when em is accepted and its message has the key's length modulo 2^32. */
  method StripSessionKey(em: seq<byte>, key: array<byte>) returns (err: Option<Error>)
    modifies key
    ensures err == if |em| < key.Length + 11 then Some(ErrDecryption) else None
    ensures err.Some? ==> key[..] == old(key[..])
    ensures err.None? ==> key[..] == if Overwrites(em, key.Length) then em[|em| - key.Length..] else old(key[..])
  {
    if |em| - (key.Length + 3 + 8) < 0 {
      return Some(ErrDecryption);
    }
    var valid, index, ok := Parse(em);
    if valid == 1 {
      forall m | Accepted(em, m) ensures m == em[index..] {
        AcceptedUnique(em, m, em[index..]);
      }
    }
    SameLowBits(|em| - index, key.Length);
    valid := valid * Eq(Int32(|em| - index), Int32(key.Length));
    ConstantTimeCopy(valid, key, em[|em| - key.Length..]);
    return None;
  }

  /** The key is overwritten exactly when the message's length is the key's modulo 2^32,
      and with the message exactly when the lengths are equal; below 2^32 octets the two are
      the same. */
  lemma OverwritesExactly(em: seq<byte>, m: seq<byte>, keyLen: nat)
    requires Accepted(em, m) && keyLen <= |em|
    ensures Overwrites(em, keyLen) <==> Cong(|m|, keyLen, TWO_TO_32)
    ensures em[|em| - keyLen..] == m <==> |m| == keyLen
    ensures |em| < TWO_TO_32 ==> (Overwrites(em, keyLen) <==> |m| == keyLen)
  {
    var ps :| 0 !in ps && LongEnough(|ps|) && em == Padded(ps, m);
    if Overwrites(em, keyLen) {
      var m' :| Accepted(em, m') && Cong(|m'|, keyLen, TWO_TO_32);
      AcceptedUnique(em, m, m');
      if |em| < TWO_TO_32 {
        CongSmall(|m|, keyLen, TWO_TO_32);
      }
    }
  }

  /** A message 2^32 octets longer than the key: its last octets overwrite the key. */
  lemma WrongOverwrite(keyLen: nat) returns (em: seq<byte>, m: seq<byte>)
    ensures |em| >= keyLen + 11 && IsPadded(em, m) && |m| == keyLen + TWO_TO_32
    ensures Overwrites(em, keyLen) && em[|em| - keyLen..] != m
  {
    var ps := seq(8, _ => 1);
    m := Zeros(keyLen + TWO_TO_32);
    em := Padded(ps, m);
    assert PaddingString(ps) && LongEnough(|ps|);
    CongMultiple(|m|, keyLen, TWO_TO_32, 1);
    OverwritesExactly(em, m, keyLen);
  }

  // ---------------------------------------------------- through the server key

  /** An encoded message as long as the modulus is below it, so the server's decryption
      of its encryption is the encoded message itself. */
  lemma PaddedSurvivesDecryption(k: Rsa.PrivateKey, ps: seq<byte>, m: seq<byte>)
    requires Rsa.WellFormed(k)
    requires |ps| + |m| + 3 == OctetLen(k.n)
    ensures var em := Padded(ps, m);
            && Os2ip(em) < k.n
            && Rsa.Plaintext(k, Exp(Os2ip(em), k.e, k.n)) == em
            && (Rsa.Faithful(k, Exp(Os2ip(em), k.e, k.n)) <==> Rsa.Faithful(k, Os2ip(em)))
  {
    var em := Padded(ps, m);
    assert em == [0] + em[1..];
    Os2ipConcat([0], em[1..]);
    assert Os2ip([0]) == 0;
    Os2ipBound(em[1..]);
    Rsa.DecryptUndoesEncrypt(k, Os2ip(em));
    Os2ipExact(em);
  }

  /** Decrypter.Decrypt against the server's key: the octets of a PKCS #1 v1.5
      encryption of m come back as m, whatever the blinding draws. */
  method DecryptThenStrip(k: Rsa.PrivateKey, ps: seq<byte>, m: seq<byte>, draws: seq<nat>)
    returns (res: Result<seq<byte>, Error>)
    requires Rsa.WellFormed(k) && 11 <= OctetLen(k.n) <= TWO_TO_31 + 10
    requires PaddingString(ps) && |ps| + |m| + 3 == OctetLen(k.n)
    requires Rsa.Faithful(k, Os2ip(Padded(ps, m))) && Rsa.Drawable(draws, k.n)
    ensures res == Ok(m)
  {
    var em := Padded(ps, m);
    PaddedSurvivesDecryption(k, ps, m);
    var c := Exp(Os2ip(em), k.e, k.n);
    I2ospExact(c, OctetLen(k.n));
    var ptxt := Rsa.Decrypt(k, I2osp(c, OctetLen(k.n)), draws);
    res := Strip(ptxt.value);
    assert IsPadded(em, m);
  }
}
