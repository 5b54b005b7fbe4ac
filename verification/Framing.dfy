/** Packets on a byte stream (protocol/protocol.go): headers, NewPacket, WriteTo and
    ReadFrom. A reader is the sequence of octets still to come. */
module Framing {
  import opened Wrappers
  import opened Bytes
  import opened Tlv
  import opened Operations
  import opened Decoding

  type uint16 = x: int | 0 <= x < 0x1_0000
  type uint32 = x: int | 0 <= x < 0x1_0000_0000

  datatype Header = Header(majorVers: byte, minorVers: byte, length: uint16, id: uint32)

  datatype Packet = Packet(header: Header, op: Operation)

  function U32(x: uint32): (s: seq<byte>)
    ensures |s| == 4
  {
    [x / 0x100_0000, x / 0x1_0000 % 256, x / 0x100 % 256, x % 256]
  }

  function ReadU32(s: seq<byte>): uint32
    requires |s| == 4
  {
    ((s[0] as int * 256 + s[1]) * 256 + s[2]) * 256 + s[3]
  }

  lemma U32RoundTrip(x: uint32)
    ensures ReadU32(U32(x)) == x
  {
    var a, b, c := x / 0x100, x / 0x1_0000, x / 0x100_0000;
    assert b == a / 256 && c == b / 256;
    assert x == a * 256 + x % 256 && a == b * 256 + a % 256 && b == c * 256 + b % 256;
  }

  /** Header.MarshalBinary. */
  function HeaderBytes(h: Header): (s: seq<byte>)
    ensures |s| == 8
  {
    [h.majorVers, h.minorVers] + U16(h.length) + U32(h.id)
  }

  /** Header.UnmarshalBinary on eight octets. */
  function ParseHeader(s: seq<byte>): Header
    requires |s| == 8
  {
    ReadU16RoundTrip(s[2..4]);
    Header(s[0], s[1], ReadU16(s[2..4]), ReadU32(s[4..8]))
  }

  /** The eight octets of a header: versions, length and ID, high octets first. */
  lemma HeaderOctets(h: Header)
    ensures var s := HeaderBytes(h);
            && s[0] == h.majorVers && s[1] == h.minorVers
            && s[2] as int * 256 + s[3] == h.length
            && ((s[4] as int * 256 + s[5]) * 256 + s[6]) * 256 + s[7] == h.id
  {
    HeaderRoundTrip(h);
    var s := HeaderBytes(h);
    assert s[2..4] == [s[2], s[3]] && s[4..8] == [s[4], s[5], s[6], s[7]];
  }

  lemma HeaderRoundTrip(h: Header)
    ensures ParseHeader(HeaderBytes(h)) == h
  {
    var s := HeaderBytes(h);
    assert s[2..4] == U16(h.length) && s[4..8] == U32(h.id);
    U16RoundTrip(h.length);
    U32RoundTrip(h.id);
  }

  /** NewPacket: version 1.0 and the length Bytes counts; a panic when that exceeds 65535.
      With proper IPs the length is that of the body. */
  method NewPacket(id: uint32, op: Operation) returns (p: Option<Packet>)
    ensures p.Some? <==> |Wire(Countable(op))| <= 65535
    ensures p.Some? ==> p.value == Packet(Header(1, 0, |Wire(Countable(op))|, id), op)
    ensures p.Some? && ProperIP(op.clientIP) && ProperIP(op.serverIP) ==> IsNewPacket(p.value)
  {
    var length :- BytesLen(op);
    return Some(Packet(Header(1, 0, length, id), op));
  }

  /** The packets NewPacket makes of operations with proper IPs. */
  predicate IsNewPacket(p: Packet) {
    && ProperIP(p.op.clientIP) && ProperIP(p.op.serverIP)
    && p.header.majorVers == 1 && p.header.minorVers == 0
    && |Wire(p.op)| == p.header.length
  }

  function PacketBytes(p: Packet): seq<byte> {
    HeaderBytes(p.header) + Wire(p.op)
  }

  /** Packet.WriteTo: the header, then the operation. */
  method WriteTo(p: Packet) returns (written: seq<byte>)
    ensures written == PacketBytes(p)
  {
    var body := MarshalBinary(p.op);
    written := HeaderBytes(p.header) + body;
  }

  // ------------------------------------------------------------------- reading

  /** What one ReadFrom yields, and how many octets it takes from the reader. */
  ghost function ReadPacket(r: seq<byte>): (Option<Packet>, nat) {
    if |r| < 8 then (None, |r|)
    else
      var h := ParseHeader(r[..8]);
      if |r| < 8 + h.length then (None, |r|)
      else (DecodedPacket(h, r[8..8 + h.length]), 8 + h.length)
  }

  ghost function DecodedPacket(h: Header, body: seq<byte>): Option<Packet> {
    var o := Decoded(ZERO_OPERATION, body);
    if o.Some? then Some(Packet(h, o.value)) else None
  }

  /** EOF is the end of the stream before the first octet of a header or body. */
  datatype ReadError = EOF | UnexpectedEOF | Malformed(error: DecodeError)

  /** Packet.ReadFrom into a new packet: n is the number of octets read, also when the
      stream ends early or the body does not decode. */
  method ReadFrom(r: seq<byte>) returns (res: Result<Packet, ReadError>, n: nat)
    ensures n == ReadPacket(r).1 <= |r|
    ensures res.Ok? <==> ReadPacket(r).0.Some?
    ensures res.Ok? ==> res.value == ReadPacket(r).0.value
    ensures res == Err(EOF) <==> |r| == 0 || (|r| == 8 < 8 + ParseHeader(r[..8]).length)
    ensures res == Err(UnexpectedEOF) <==> 0 < |r| < 8 || (8 < |r| < 8 + ParseHeader(r[..8]).length)
  {
    if |r| < 8 {
      return Err(if |r| == 0 then EOF else UnexpectedEOF), |r|;
    }
    var h := ParseHeader(r[..8]);
    n := 8;
    if |r| - n < h.length {
      return Err(if |r| == n then EOF else UnexpectedEOF), |r|;
    }
    var body := r[n..n + h.length];
    n := n + h.length;
    var o := UnmarshalBinary(ZERO_OPERATION, body);
    if o.Err? {
      return Err(Malformed(o.error)), n;
    }
    return Ok(Packet(h, o.value)), n;
  }

  // ------------------------------------------------------------------- streams

  /** A complete packet as it lies on the stream: any body of the announced length. */
  datatype Frame = Frame(header: Header, body: seq<byte>)

  predicate Complete(frames: seq<Frame>) {
    forall i :: 0 <= i < |frames| ==> |frames[i].body| == frames[i].header.length
  }

  function FrameBytes(f: Frame): seq<byte> {
    HeaderBytes(f.header) + f.body
  }

  function StreamBytes(frames: seq<Frame>): seq<byte> {
    if frames == [] then [] else FrameBytes(frames[0]) + StreamBytes(frames[1..])
  }

  /** k calls of a packet reader in a row: their results and the octets they take. */
  ghost function Repeat<T>(read: seq<byte> -> (T, nat), r: seq<byte>, k: nat): (seq<T>, nat)
    decreases k
  {
    if k == 0 then ([], 0)
    else
      var (p, n) := read(r);
      if n > |r| then ([], 0)
      else
        var (ps, m) := Repeat(read, r[n..], k - 1);
        ([p] + ps, n + m)
  }

  ghost function ReadMany(r: seq<byte>, k: nat): (seq<Option<Packet>>, nat) {
    Repeat(ReadPacket, r, k)
  }

  /** A complete packet takes exactly 8 + Length octets, whether or not it decodes. */
  lemma ReadFrame(f: Frame, rest: seq<byte>)
    requires |f.body| == f.header.length
    ensures ReadPacket(FrameBytes(f) + rest) == (DecodedPacket(f.header, f.body), 8 + f.header.length)
    ensures (FrameBytes(f) + rest)[8 + f.header.length..] == rest
  {
    var r := FrameBytes(f) + rest;
    assert r[..8] == HeaderBytes(f.header);
    HeaderRoundTrip(f.header);
    assert r[8..8 + f.header.length] == f.body;
  }

  ghost function Each<T>(decode: Frame -> T, frames: seq<Frame>): (s: seq<T>)
    ensures |s| == |frames| && forall i :: 0 <= i < |frames| ==> s[i] == decode(frames[i])
  {
    seq(|frames|, i requires 0 <= i < |frames| => decode(frames[i]))
  }

  /** A reader that takes each frame whole, whatever follows it. */
  ghost predicate TakesWhole<T(!new)>(read: seq<byte> -> (T, nat), decode: Frame -> T, f: Frame) {
    forall t :: read(FrameBytes(f) + t) == (decode(f), |FrameBytes(f)|)
  }

  /** A reader that takes every frame whole reads a stream of them in step. */
  lemma {:induction false} RepeatAligned<T(!new)>(read: seq<byte> -> (T, nat), decode: Frame -> T, frames: seq<Frame>, rest: seq<byte>)
    requires forall i :: 0 <= i < |frames| ==> TakesWhole(read, decode, frames[i])
    ensures Repeat(read, StreamBytes(frames) + rest, |frames|) == (Each(decode, frames), |StreamBytes(frames)|)
  {
    if frames == [] {
      assert Each(decode, frames) == [];
    } else {
      var f, tail := frames[0], StreamBytes(frames[1..]) + rest;
      RepeatAligned(read, decode, frames[1..], rest);
      Associative(FrameBytes(f), StreamBytes(frames[1..]), rest);
      assert TakesWhole(read, decode, f);
      assert (FrameBytes(f) + tail)[|FrameBytes(f)|..] == tail;
      assert Each(decode, frames) == [decode(f)] + Each(decode, frames[1..]);
    }
  }

  /** What the body of a frame decodes to, if it decodes. */
  ghost function FramePacket(f: Frame): Option<Packet> {
    DecodedPacket(f.header, f.body)
  }

  /** Framing stays aligned: reading back-to-back complete packets yields each one's own
      decoding, bad ones included, and takes exactly their octets. */
  lemma StreamAligned(frames: seq<Frame>, rest: seq<byte>)
    requires Complete(frames)
    ensures ReadMany(StreamBytes(frames) + rest, |frames|) == (Each(FramePacket, frames), |StreamBytes(frames)|)
  {
    forall i | 0 <= i < |frames|
      ensures TakesWhole(ReadPacket, FramePacket, frames[i])
    {
      forall t {
        ReadFrame(frames[i], t);
      }
    }
    RepeatAligned(ReadPacket, FramePacket, frames, rest);
  }

  function FrameOf(p: Packet): Frame {
    Frame(p.header, Wire(p.op))
  }

  function FramesOf(ps: seq<Packet>): (fs: seq<Frame>)
    ensures |fs| == |ps| && forall i :: 0 <= i < |ps| ==> fs[i] == FrameOf(ps[i])
  {
    seq(|ps|, i requires 0 <= i < |ps| => FrameOf(ps[i]))
  }

  /** The octets of packets written one after the other. */
  function Written(ps: seq<Packet>): seq<byte> {
    if ps == [] then [] else PacketBytes(ps[0]) + Written(ps[1..])
  }

  lemma {:induction false} WrittenFrames(ps: seq<Packet>)
    ensures Written(ps) == StreamBytes(FramesOf(ps))
  {
    if ps != [] {
      WrittenFrames(ps[1..]);
      assert FramesOf(ps)[1..] == FramesOf(ps[1..]);
    }
  }

  /** NewPacket packets written back to back are read back as the same sequence in normal
      form, taking every octet and no more. */
  lemma StreamRoundTrip(ps: seq<Packet>, rest: seq<byte>)
    requires forall i :: 0 <= i < |ps| ==> IsNewPacket(ps[i])
    ensures var (got, n) := ReadMany(Written(ps) + rest, |ps|);
            && n == |Written(ps)| && |got| == |ps|
            && forall i :: 0 <= i < |ps| ==> got[i] == Some(Packet(ps[i].header, NormalForm(ps[i].op)))
  {
    WrittenFrames(ps);
    StreamAligned(FramesOf(ps), rest);
    forall i | 0 <= i < |ps|
      ensures Each(FramePacket, FramesOf(ps))[i] == Some(Packet(ps[i].header, NormalForm(ps[i].op)))
    {
      RoundTrip(ps[i].op);
    }
  }
}
