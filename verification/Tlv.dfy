/** Tag-length-value items, the body format of a Keyless message
    (protocol/protocol.go). */
module Tlv {
  import opened Wrappers
  import opened Bytes

  datatype Item = Item(tag: byte, data: seq<byte>)

  /** Two octets, big-endian, keeping the low 16 bits. */
  function U16(x: nat): (s: seq<byte>)
    ensures |s| == 2
  {
    [x / 256 % 256, x % 256]
  }

  function ReadU16(s: seq<byte>): nat
    requires |s| == 2
  {
    s[0] as int * 256 + s[1]
  }

  lemma U16RoundTrip(x: nat)
    requires x < 65536
    ensures ReadU16(U16(x)) == x
  {
  }

  lemma ReadU16RoundTrip(s: seq<byte>)
    requires |s| == 2
    ensures ReadU16(s) < 65536 && U16(ReadU16(s)) == s
  {
  }

  /** tlvBytes: the length field holds the low 16 bits of the data's length. */
  function TlvBytes(tag: byte, data: seq<byte>): (s: seq<byte>)
    ensures |s| == 3 + |data|
  {
    [tag] + U16(|data|) + data
  }

  /** The octets of an item: its tag, its length in two octets, the high one first, and its
      data. */
  lemma ItemOctets(tag: byte, data: seq<byte>)
    requires |data| < 65536
    ensures var s := TlvBytes(tag, data);
            s[0] == tag && s[1] as int * 256 + s[2] == |data| && s[3..] == data
  {
    assert [tag] + U16(|data|) + data == ([tag] + U16(|data|)) + data;
  }

  function Encode(items: seq<Item>): seq<byte> {
    if items == [] then [] else TlvBytes(items[0].tag, items[0].data) + Encode(items[1..])
  }

  lemma {:induction false} EncodeConcat(a: seq<Item>, b: seq<Item>)
    ensures Encode(a + b) == Encode(a) + Encode(b)
  {
    if a == [] {
      assert a + b == b;
    } else {
      EncodeConcat(a[1..], b);
      assert (a + b)[1..] == a[1..] + b;
      Associative(TlvBytes(a[0].tag, a[0].data), Encode(a[1..]), Encode(b));
    }
  }

  // ----------------------------------------------------------------- splitting

  /** The items have lengths their length fields can hold. */
  predicate Sized(items: seq<Item>) {
    forall i :: 0 <= i < |items| ==> |items[i].data| < 65536
  }

  /** The items of a body: whole items until fewer than three octets are left. None
      when an item's length runs past the end. */
  function Split(body: seq<byte>): Option<seq<Item>> {
    if |body| < 3 then Some([])
    else
      var n := ReadU16(body[1..3]);
      if 3 + n > |body| then None
      else
        var rest := Split(body[3 + n..]);
        if rest.None? then None else Some([Item(body[0], body[3..3 + n])] + rest.value)
  }

  lemma TlvHead(it: Item, rest: seq<byte>)
    requires |it.data| < 65536
    ensures var body := TlvBytes(it.tag, it.data) + rest;
            && 3 <= |body| && body[0] == it.tag
            && ReadU16(body[1..3]) == |it.data|
            && body[3..3 + |it.data|] == it.data
            && body[3 + |it.data|..] == rest
  {
    var body := TlvBytes(it.tag, it.data) + rest;
    assert body[1..3] == U16(|it.data|);
    U16RoundTrip(|it.data|);
  }

  lemma Associative(a: seq<byte>, b: seq<byte>, c: seq<byte>)
    ensures (a + b) + c == a + (b + c)
  {
  }

  /** Splitting an item off the front of a body. */
  lemma SplitCons(it: Item, rest: seq<byte>)
    requires |it.data| < 65536
    ensures Split(TlvBytes(it.tag, it.data) + rest)
         == if Split(rest).None? then None else Some([it] + Split(rest).value)
  {
    TlvHead(it, rest);
  }

  /** Splitting finds the items of an encoding, and ignores up to two octets after it. */
  lemma {:induction false} SplitEncode(items: seq<Item>, trailing: seq<byte>)
    requires Sized(items) && |trailing| <= 2
    ensures Split(Encode(items) + trailing) == Some(items)
  {
    if items == [] {
      assert Encode(items) + trailing == trailing;
    } else {
      var it := items[0];
      SplitEncode(items[1..], trailing);
      SplitCons(it, Encode(items[1..]) + trailing);
      Associative(TlvBytes(it.tag, it.data), Encode(items[1..]), trailing);
      assert items == [it] + items[1..];
    }
  }

  /** The first item of a body long enough to hold it. */
  lemma HeadTlv(body: seq<byte>) returns (it: Item, rest: seq<byte>)
    requires 3 <= |body| && 3 + ReadU16(body[1..3]) <= |body|
    ensures it == Item(body[0], body[3..3 + ReadU16(body[1..3])]) && rest == body[3 + ReadU16(body[1..3])..]
    ensures |it.data| < 65536 && |rest| < |body|
    ensures body == TlvBytes(it.tag, it.data) + rest
  {
    var n := ReadU16(body[1..3]);
    it, rest := Item(body[0], body[3..3 + n]), body[3 + n..];
    ReadU16RoundTrip(body[1..3]);
    assert body[..3] == [body[0]] + U16(n);
  }

  /** What Split finds re-encodes to the body up to at most two octets. */
  lemma {:induction false} EncodeSplit(body: seq<byte>) returns (trailing: seq<byte>)
    requires Split(body).Some?
    ensures Sized(Split(body).value) && |trailing| <= 2
    ensures body == Encode(Split(body).value) + trailing
    decreases |body|
  {
    if |body| < 3 {
      trailing := body;
      assert Encode([]) + body == body;
    } else {
      var it, rest := HeadTlv(body);
      SplitCons(it, rest);
      trailing := EncodeSplit(rest);
      EncodeCons(it, Split(rest).value);
      Associative(TlvBytes(it.tag, it.data), Encode(Split(rest).value), trailing);
    }
  }

  lemma EncodeCons(it: Item, items: seq<Item>)
    ensures Encode([it] + items) == TlvBytes(it.tag, it.data) + Encode(items)
  {
    assert ([it] + items)[1..] == items;
  }

  /** body is these items back to back, followed by at most two octets. */
  ghost predicate SplitsInto(body: seq<byte>, items: seq<Item>) {
    Sized(items) && exists trailing :: |trailing| <= 2 && body == Encode(items) + trailing
  }

  /** Split computes the one way to cut a body into items. */
  lemma SplitExact(body: seq<byte>, items: seq<Item>)
    ensures Split(body) == Some(items) <==> SplitsInto(body, items)
  {
    if Split(body) == Some(items) {
      var trailing := EncodeSplit(body);
    }
    if SplitsInto(body, items) {
      var trailing :| |trailing| <= 2 && body == Encode(items) + trailing;
      SplitEncode(items, trailing);
    }
  }

  // -------------------------------------------------------------------- lookup

  /** The data of the first item with a tag. */
  function Lookup(items: seq<Item>, tag: byte): Option<seq<byte>> {
    if items == [] then None
    else if items[0].tag == tag then Some(items[0].data)
    else Lookup(items[1..], tag)
  }

  function TagCount(items: seq<Item>, tag: byte): nat {
    if items == [] then 0 else (if items[0].tag == tag then 1 else 0) + TagCount(items[1..], tag)
  }

  lemma {:induction false} LookupConcat(a: seq<Item>, b: seq<Item>, tag: byte)
    ensures Lookup(a + b, tag) == if Lookup(a, tag).Some? then Lookup(a, tag) else Lookup(b, tag)
    ensures TagCount(a + b, tag) == TagCount(a, tag) + TagCount(b, tag)
  {
    if a == [] {
      assert a + b == b;
    } else {
      LookupConcat(a[1..], b, tag);
      assert (a + b)[1..] == a[1..] + b;
    }
  }

  lemma {:induction false} LookupCount(items: seq<Item>, tag: byte)
    ensures Lookup(items, tag).Some? <==> TagCount(items, tag) > 0
  {
    if items != [] {
      LookupCount(items[1..], tag);
    }
  }

  /** When a tag occurs at most once, its data is that of the item carrying it. */
  lemma {:induction false} LookupUnique(items: seq<Item>, tag: byte, data: seq<byte>)
    requires TagCount(items, tag) <= 1
    ensures Lookup(items, tag) == Some(data) <==> Item(tag, data) in items
  {
    if items != [] {
      LookupUnique(items[1..], tag, data);
      LookupCount(items[1..], tag);
      assert items == [items[0]] + items[1..];
    }
  }

  lemma {:induction false} TagCountRemove(items: seq<Item>, i: nat, tag: byte)
    requires i < |items|
    ensures TagCount(items, tag) == TagCount(items[..i] + items[i + 1..], tag) + if items[i].tag == tag then 1 else 0
  {
    assert items == items[..i] + ([items[i]] + items[i + 1..]);
    LookupConcat(items[..i], [items[i]] + items[i + 1..], tag);
    LookupConcat(items[..i], items[i + 1..], tag);
    assert ([items[i]] + items[i + 1..])[1..] == items[i + 1..];
  }

  lemma MultisetTail(a: seq<Item>)
    requires a != []
    ensures multiset(a[1..]) == multiset(a) - multiset{a[0]}
  {
    assert a == [a[0]] + a[1..];
  }

  lemma MultisetRemove(b: seq<Item>, i: nat)
    requires i < |b|
    ensures multiset(b[..i] + b[i + 1..]) == multiset(b) - multiset{b[i]}
  {
    assert b == b[..i] + [b[i]] + b[i + 1..];
  }

  /** The number of items with a tag does not depend on their order. */
  lemma {:induction false} TagCountPermuted(a: seq<Item>, b: seq<Item>, tag: byte)
    requires multiset(a) == multiset(b)
    ensures TagCount(a, tag) == TagCount(b, tag)
    decreases |a|
  {
    if a == [] {
      assert |multiset(b)| == 0;
    } else {
      assert a[0] in multiset(b);
      var i :| 0 <= i < |b| && b[i] == a[0];
      MultisetTail(a);
      MultisetRemove(b, i);
      TagCountPermuted(a[1..], b[..i] + b[i + 1..], tag);
      TagCountRemove(b, i, tag);
    }
  }
}
