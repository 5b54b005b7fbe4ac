/** Operations and their wire format (protocol/protocol.go): encoding with padding,
    length accounting, and decoding. */
module Operations {
  import opened Wrappers
  import opened Bytes
  import opened Tlv

  const TAG_DIGEST: byte := 0x01
  const TAG_SERVER_NAME: byte := 0x02
  const TAG_CLIENT_IP: byte := 0x03
  const TAG_SKI: byte := 0x04
  const TAG_SERVER_IP: byte := 0x05
  const TAG_CERT_ID: byte := 0x06
  const TAG_OPCODE: byte := 0x11
  const TAG_PAYLOAD: byte := 0x12
  const TAG_CUSTOM_FUNC_NAME: byte := 0x13
  const TAG_EXTRA: byte := 0x14
  const TAG_JAEGER_SPAN: byte := 0x15
  const TAG_PADDING: byte := 0x20

  const PADDED_LENGTH: int := 1024
  const HEADER_SIZE: int := 8

  type Ski = s: seq<byte> | |s| == 20 witness Zeros(20)
  type Digest = s: seq<byte> | |s| == 32 witness Zeros(32)

  /** An operation. A slice is an Option so that nil and empty differ as in the source;
      strings are their octets. */
  datatype Operation = Operation(
    opcode: byte,
    payload: Option<seq<byte>>,
    extra: Option<seq<byte>>,
    ski: Ski,
    digest: Digest,
    clientIP: Option<seq<byte>>,
    serverIP: Option<seq<byte>>,
    sni: seq<byte>,
    certID: seq<byte>,
    customFuncName: seq<byte>,
    jaegerSpan: Option<seq<byte>>)

  /** The zero value of an operation. */
  const ZERO_OPERATION: Operation :=
    Operation(0, None, None, Zeros(20), Zeros(32), None, None, [], [], [], None)

  function Len(s: Option<seq<byte>>): nat {
    if s.Some? then |s.value| else 0
  }

  /** net.IP.To4: the four octets of an IPv4 address in either of its forms. */
  function To4(ip: seq<byte>): Option<seq<byte>> {
    if |ip| == 4 then Some(ip)
    else if |ip| == 16 && ip[..10] == Zeros(10) && ip[10] == 0xff && ip[11] == 0xff then Some(ip[12..])
    else None
  }

  function WireIP(ip: seq<byte>): seq<byte> {
    if To4(ip).Some? then To4(ip).value else ip
  }

  /** An IP field the protocol allows: absent, IPv4 or IPv6. */
  predicate ProperIP(ip: Option<seq<byte>>) {
    ip.None? || |ip.value| == 4 || |ip.value| == 16
  }

  // ------------------------------------------------------------ specification

  /** The tags of an operation's fields in the order they are written. */
  const WIRE_ORDER: seq<byte> :=
    [TAG_OPCODE, TAG_PAYLOAD, TAG_EXTRA, TAG_SKI, TAG_DIGEST, TAG_CLIENT_IP, TAG_SERVER_IP,
     TAG_SERVER_NAME, TAG_CERT_ID, TAG_CUSTOM_FUNC_NAME, TAG_JAEGER_SPAN]

  /** The data written for a field, or None when the field is left out. */
  function FieldData(o: Operation, tag: byte): Option<seq<byte>> {
    if tag == TAG_OPCODE then Some([o.opcode])
    else if tag == TAG_PAYLOAD then (if Len(o.payload) > 0 then o.payload else None)
    else if tag == TAG_EXTRA then (if Len(o.extra) > 0 then o.extra else None)
    else if tag == TAG_SKI then (if o.ski != Zeros(20) then Some(o.ski) else None)
    else if tag == TAG_DIGEST then (if o.digest != Zeros(32) then Some(o.digest) else None)
    else if tag == TAG_CLIENT_IP then (if o.clientIP.Some? then Some(WireIP(o.clientIP.value)) else None)
    else if tag == TAG_SERVER_IP then (if o.serverIP.Some? then Some(WireIP(o.serverIP.value)) else None)
    else if tag == TAG_SERVER_NAME then (if o.sni != [] then Some(o.sni) else None)
    else if tag == TAG_CERT_ID then (if o.certID != [] then Some(o.certID) else None)
    else if tag == TAG_CUSTOM_FUNC_NAME then (if o.customFuncName != [] then Some(o.customFuncName) else None)
    else if tag == TAG_JAEGER_SPAN then o.jaegerSpan
    else None
  }

  function Field(o: Operation, tag: byte): seq<Item> {
    var d := FieldData(o, tag);
    if d.Some? then [Item(tag, d.value)] else []
  }

  /** The items of the first k fields. */
  function Fields(o: Operation, k: nat): seq<Item>
    requires k <= |WIRE_ORDER|
    decreases k, o
  {
    if k == 0 then [] else Fields(o, k - 1) + Field(o, WIRE_ORDER[k - 1])
  }

  /** The padding item added to a body of n octets. */
  function Padding(n: nat): seq<Item> {
    if n + HEADER_SIZE < PADDED_LENGTH then
      var left := PADDED_LENGTH - (n + HEADER_SIZE + 3);
      [Item(TAG_PADDING, Zeros(if left < 0 then 0 else left))]
    else []
  }

  function Unpadded(o: Operation): seq<byte> {
    Encode(Fields(o, |WIRE_ORDER|))
  }

  /** The items of an operation's wire format. */
  function WireItems(o: Operation): seq<Item> {
    Fields(o, |WIRE_ORDER|) + Padding(|Unpadded(o)|)
  }

  function Wire(o: Operation): seq<byte> {
    Encode(WireItems(o))
  }

  /** An item under a tag, or nothing. */
  function Opt(present: bool, tag: byte, data: seq<byte>): seq<Item> {
    if present then [Item(tag, data)] else []
  }

  /** The items of an operation under their tags' numbers, in order, before padding. */
  lemma WireLayout(o: Operation)
    ensures Fields(o, |WIRE_ORDER|)
         == Opt(true, 0x11, [o.opcode])
            + Opt(o.payload.Some? && o.payload.value != [], 0x12, if o.payload.Some? then o.payload.value else [])
            + Opt(o.extra.Some? && o.extra.value != [], 0x14, if o.extra.Some? then o.extra.value else [])
            + Opt(o.ski != Zeros(20), 0x04, o.ski)
            + Opt(o.digest != Zeros(32), 0x01, o.digest)
            + Opt(o.clientIP.Some?, 0x03, if o.clientIP.Some? then WireIP(o.clientIP.value) else [])
            + Opt(o.serverIP.Some?, 0x05, if o.serverIP.Some? then WireIP(o.serverIP.value) else [])
            + Opt(o.sni != [], 0x02, o.sni)
            + Opt(o.certID != [], 0x06, o.certID)
            + Opt(o.customFuncName != [], 0x13, o.customFuncName)
            + Opt(o.jaegerSpan.Some?, 0x15, if o.jaegerSpan.Some? then o.jaegerSpan.value else [])
    ensures WireItems(o)[..|Fields(o, |WIRE_ORDER|)|] == Fields(o, |WIRE_ORDER|)
    ensures forall i :: |Fields(o, |WIRE_ORDER|)| <= i < |WireItems(o)| ==> WireItems(o)[i].tag == 0x20
  {
    FieldsListed(o);
    FieldsNamed(o);
  }

  lemma FieldsNamed(o: Operation)
    ensures Field(o, TAG_OPCODE) == Opt(true, 0x11, [o.opcode])
    ensures Field(o, TAG_PAYLOAD)
         == Opt(o.payload.Some? && o.payload.value != [], 0x12, if o.payload.Some? then o.payload.value else [])
    ensures Field(o, TAG_EXTRA)
         == Opt(o.extra.Some? && o.extra.value != [], 0x14, if o.extra.Some? then o.extra.value else [])
    ensures Field(o, TAG_SKI) == Opt(o.ski != Zeros(20), 0x04, o.ski)
    ensures Field(o, TAG_DIGEST) == Opt(o.digest != Zeros(32), 0x01, o.digest)
    ensures Field(o, TAG_CLIENT_IP)
         == Opt(o.clientIP.Some?, 0x03, if o.clientIP.Some? then WireIP(o.clientIP.value) else [])
    ensures Field(o, TAG_SERVER_IP)
         == Opt(o.serverIP.Some?, 0x05, if o.serverIP.Some? then WireIP(o.serverIP.value) else [])
    ensures Field(o, TAG_SERVER_NAME) == Opt(o.sni != [], 0x02, o.sni)
    ensures Field(o, TAG_CERT_ID) == Opt(o.certID != [], 0x06, o.certID)
    ensures Field(o, TAG_CUSTOM_FUNC_NAME) == Opt(o.customFuncName != [], 0x13, o.customFuncName)
    ensures Field(o, TAG_JAEGER_SPAN)
         == Opt(o.jaegerSpan.Some?, 0x15, if o.jaegerSpan.Some? then o.jaegerSpan.value else [])
  {
  }

  lemma FieldsListed(o: Operation)
    ensures Fields(o, |WIRE_ORDER|)
         == Field(o, TAG_OPCODE) + Field(o, TAG_PAYLOAD) + Field(o, TAG_EXTRA) + Field(o, TAG_SKI) + Field(o, TAG_DIGEST)
            + Field(o, TAG_CLIENT_IP) + Field(o, TAG_SERVER_IP) + Field(o, TAG_SERVER_NAME) + Field(o, TAG_CERT_ID)
            + Field(o, TAG_CUSTOM_FUNC_NAME) + Field(o, TAG_JAEGER_SPAN)
  {
    FirstField(o);
    FieldsStep(o, 2);
    FieldsStep(o, 3);
    FieldsStep(o, 4);
    FieldsStep(o, 5);
    FieldsStep(o, 6);
    FieldsStep(o, 7);
    FieldsStep(o, 8);
    FieldsStep(o, 9);
    FieldsStep(o, 10);
    FieldsStep(o, 11);
  }

  lemma FirstField(o: Operation)
    ensures Fields(o, 1) == Field(o, TAG_OPCODE)
  {
    assert Fields(o, 0) == [];
  }

  lemma FieldsStep(o: Operation, k: nat)
    requires 0 < k <= |WIRE_ORDER|
    ensures Fields(o, k) == Fields(o, k - 1) + Field(o, WIRE_ORDER[k - 1])
  {
  }

  /** An IPv4 address in sixteen octets: ten zeros, two 0xff and its four. */
  predicate Mapped(ip: seq<byte>) {
    |ip| == 16 && ip[..12] == [0, 0, 0, 0, 0, 0, 0, 0, 0, 0, 0xff, 0xff]
  }

  /** On the wire such an address has its last four octets, every other IP all of its own. */
  lemma WireIPs(ip: seq<byte>)
    ensures Mapped(ip) ==> WireIP(ip) == [ip[12], ip[13], ip[14], ip[15]]
    ensures !Mapped(ip) ==> WireIP(ip) == ip
  {
    assert Zeros(10) == [0, 0, 0, 0, 0, 0, 0, 0, 0, 0];
    if |ip| == 16 {
      assert ip[..12] == ip[..10] + [ip[10], ip[11]];
      assert ip[..12][..10] == ip[..10];
    }
  }

  // ------------------------------------------------------------------ encoding

  lemma EncodeField(o: Operation, k: nat)
    requires 0 < k <= |WIRE_ORDER|
    ensures var d := FieldData(o, WIRE_ORDER[k - 1]);
            Encode(Fields(o, k)) == Encode(Fields(o, k - 1)) + if d.Some? then TlvBytes(WIRE_ORDER[k - 1], d.value) else []
  {
    EncodeConcat(Fields(o, k - 1), Field(o, WIRE_ORDER[k - 1]));
    EncodeOne(o, WIRE_ORDER[k - 1]);
  }

  lemma EncodeOne(o: Operation, tag: byte)
    ensures var d := FieldData(o, tag);
            Encode(Field(o, tag)) == if d.Some? then TlvBytes(tag, d.value) else []
  {
    var d := FieldData(o, tag);
    if d.Some? {
      EncodeCons(Item(tag, d.value), []);
      assert [Item(tag, d.value)] + [] == Field(o, tag);
      assert TlvBytes(tag, d.value) + Encode([]) == TlvBytes(tag, d.value);
    }
  }

  /** One field appended to the buffer, if it is present. */
  method AppendField(b: seq<byte>, o: Operation, k: nat) returns (b': seq<byte>)
    requires 0 < k <= |WIRE_ORDER| && b == Encode(Fields(o, k - 1))
    ensures b' == Encode(Fields(o, k))
  {
    EncodeField(o, k);
    b' := b;
    var data := FieldData(o, WIRE_ORDER[k - 1]);
    if data.Some? {
      b' := b' + TlvBytes(WIRE_ORDER[k - 1], data.value);
    }
  }

  /** Operation.MarshalBinary writes the fields in order, and pads. */
  method MarshalBinary(o: Operation) returns (b: seq<byte>)
    ensures b == Wire(o)
  {
    b := [];
    b := AppendField(b, o, 1);
    b := AppendField(b, o, 2);
    b := AppendField(b, o, 3);
    b := AppendField(b, o, 4);
    b := AppendField(b, o, 5);
    b := AppendField(b, o, 6);
    b := AppendField(b, o, 7);
    b := AppendField(b, o, 8);
    b := AppendField(b, o, 9);
    b := AppendField(b, o, 10);
    b := AppendField(b, o, 11);
    EncodeWire(o);
    if |b| + HEADER_SIZE < PADDED_LENGTH {
      var left := PADDED_LENGTH - (|b| + HEADER_SIZE + 3);
      if left < 0 {
        left := 0;
      }
      b := b + TlvBytes(TAG_PADDING, Zeros(left));
    }
  }

  /** The wire format is the unpadded body and the padding item's octets. */
  lemma EncodeWire(o: Operation)
    ensures var n := |Unpadded(o)|;
            Wire(o) == Unpadded(o) + if Padding(n) == [] then [] else TlvBytes(TAG_PADDING, Padding(n)[0].data)
  {
    var p := Padding(|Unpadded(o)|);
    EncodeConcat(Fields(o, |WIRE_ORDER|), p);
    if p != [] {
      EncodeCons(p[0], []);
      assert p == [p[0]] + [];
      assert TlvBytes(TAG_PADDING, p[0].data) + Encode([]) == TlvBytes(TAG_PADDING, p[0].data);
    }
  }

  /** Every packet is at least 1024 octets, and exactly 1024 for bodies up to 1013. */
  lemma PaddedLength(o: Operation)
    ensures HEADER_SIZE + |Wire(o)| >= PADDED_LENGTH
    ensures |Unpadded(o)| <= 1013 ==> HEADER_SIZE + |Wire(o)| == PADDED_LENGTH
    ensures 1014 <= |Unpadded(o)| <= 1015 ==> HEADER_SIZE + |Wire(o)| == HEADER_SIZE + |Unpadded(o)| + 3
    ensures |Unpadded(o)| >= 1016 ==> Wire(o) == Unpadded(o)
  {
    EncodeWire(o);
  }

  // --------------------------------------------------------- length accounting

  /** tlvLen in uint16; None is its panic. */
  function TlvLen(datalen: nat): Option<nat> {
    if datalen > 65535 - 3 then None else Some((3 + datalen) % 65536)
  }

  /** The closure add of Bytes, in uint16; None is its panic. */
  function Add(length: nat, l: nat): Option<nat> {
    var sum := (l + length) % 65536;
    if sum < length then None else Some(sum)
  }

  /** Counting one more item succeeds exactly when the true total fits in 16 bits. */
  lemma AddExact(length: nat, datalen: nat)
    requires length < 65536
    ensures TlvLen(datalen).Some? && Add(length, TlvLen(datalen).value).Some? <==> length + 3 + datalen < 65536
    ensures TlvLen(datalen).Some? && Add(length, TlvLen(datalen).value).Some? ==>
              Add(length, TlvLen(datalen).value).value == length + 3 + datalen
  {
  }

  lemma {:induction false} FieldsGrow(o: Operation, j: nat, k: nat)
    requires j <= k <= |WIRE_ORDER|
    ensures |Encode(Fields(o, j))| <= |Encode(Fields(o, k))|
    decreases k
  {
    if j < k {
      FieldsGrow(o, j, k - 1);
      EncodeField(o, k);
    }
  }

  /** One field counted: datalen is None when the field is left out. */
  method CountField(length: nat, datalen: Option<nat>, ghost o: Operation, ghost k: nat)
    returns (r: Option<nat>)
    requires 0 < k <= |WIRE_ORDER| && length == |Encode(Fields(o, k - 1))| < 65536
    requires datalen.Some? <==> FieldData(o, WIRE_ORDER[k - 1]).Some?
    requires datalen.Some? ==> datalen.value == |FieldData(o, WIRE_ORDER[k - 1]).value|
    ensures r.Some? ==> r.value == |Encode(Fields(o, k))| < 65536
    ensures r.None? ==> |Wire(o)| > 65535
  {
    EncodeField(o, k);
    FieldsGrow(o, k, |WIRE_ORDER|);
    EncodeWire(o);
    if datalen.None? {
      return Some(length);
    }
    AddExact(length, datalen.value);
    var l :- TlvLen(datalen.value);
    r := Add(length, l);
  }

  function IPLen(ip: Option<seq<byte>>): Option<nat> {
    if ip.None? then None else if To4(ip.value).Some? then Some(4) else Some(16)
  }

  /** The operation whose wire length Bytes counts: every IP that is not four octets in
      either form is taken to have sixteen. */
  function Countable(o: Operation): Operation {
    o.(clientIP := SixteenUnlessProper(o.clientIP), serverIP := SixteenUnlessProper(o.serverIP))
  }

  function SixteenUnlessProper(ip: Option<seq<byte>>): Option<seq<byte>> {
    if ProperIP(ip) then ip else Some(Zeros(16))
  }

  method CountContent(o: Operation) returns (r: Option<nat>)
    ensures r.Some? ==> r.value == |Encode(Fields(Countable(o), 5))| < 65536
    ensures r.None? ==> |Wire(Countable(o))| > 65535
  {
    ghost var c := Countable(o);
    var length := 0;
    length :- CountField(length, Some(1), c, 1);
    length :- CountField(length, if Len(o.payload) > 0 then Some(Len(o.payload)) else None, c, 2);
    length :- CountField(length, if Len(o.extra) > 0 then Some(Len(o.extra)) else None, c, 3);
    length :- CountField(length, if o.ski != Zeros(20) then Some(|o.ski|) else None, c, 4);
    length :- CountField(length, if o.digest != Zeros(32) then Some(|o.digest|) else None, c, 5);
    return Some(length);
  }

  method CountAddresses(o: Operation, n: nat) returns (r: Option<nat>)
    requires n == |Encode(Fields(Countable(o), 5))| < 65536
    ensures r.Some? ==> r.value == |Encode(Fields(Countable(o), 7))| < 65536
    ensures r.None? ==> |Wire(Countable(o))| > 65535
  {
    ghost var c := Countable(o);
    CountedIP(o.clientIP);
    CountedIP(o.serverIP);
    var length := n;
    length :- CountField(length, IPLen(o.clientIP), c, 6);
    length :- CountField(length, IPLen(o.serverIP), c, 7);
    return Some(length);
  }

  lemma CountedIP(ip: Option<seq<byte>>)
    ensures var c := SixteenUnlessProper(ip);
            && (c.Some? <==> ip.Some?)
            && (c.Some? ==> IPLen(ip) == Some(|WireIP(c.value)|))
  {
  }

  method CountNames(o: Operation, n: nat) returns (r: Option<nat>)
    requires n == |Encode(Fields(Countable(o), 7))| < 65536
    ensures r.Some? ==> r.value == |Encode(Fields(Countable(o), 9))| < 65536
    ensures r.None? ==> |Wire(Countable(o))| > 65535
  {
    ghost var c := Countable(o);
    var length := n;
    length :- CountField(length, if o.sni != [] then Some(|o.sni|) else None, c, 8);
    length :- CountField(length, if o.certID != [] then Some(|o.certID|) else None, c, 9);
    return Some(length);
  }

  method CountExtras(o: Operation, n: nat) returns (r: Option<nat>)
    requires n == |Encode(Fields(Countable(o), 9))| < 65536
    ensures r.Some? ==> r.value == |Unpadded(Countable(o))| < 65536
    ensures r.None? ==> |Wire(Countable(o))| > 65535
  {
    ghost var c := Countable(o);
    var length := n;
    length :- CountField(length, if o.customFuncName != [] then Some(|o.customFuncName|) else None, c, 10);
    length :- CountField(length, if o.jaegerSpan.Some? then Some(|o.jaegerSpan.value|) else None, c, 11);
    return Some(length);
  }

  /** The wire length of an unpadded body of n octets. */
  function PaddedTo(n: nat): nat {
    if n <= 1013 then 1016 else if n <= 1015 then n + 3 else n
  }

  /** The padding tail of Operation.Bytes. */
  method CountPadding(n: nat) returns (r: nat)
    requires n < 65536
    ensures r == PaddedTo(n) < 65536
  {
    r := n;
    if n + HEADER_SIZE < PADDED_LENGTH {
      var left := PADDED_LENGTH - (n + HEADER_SIZE + 3);
      if left < 0 {
        left := 0;
      }
      AddExact(n, left);
      r := Add(n, TlvLen(left).value).value;
    }
  }

  lemma WireLength(o: Operation)
    ensures |Wire(o)| == PaddedTo(|Unpadded(o)|)
  {
    PaddedLength(o);
  }

  /** Operation.Bytes: the uint16 sum is the exact wire length of the countable form, and
      it panics exactly when that length exceeds 65535. For proper IPs the countable form
      is the operation itself. */
  method BytesLen(o: Operation) returns (r: Option<nat>)
    ensures r == if |Wire(Countable(o))| <= 65535 then Some(|Wire(Countable(o))|) else None
    ensures ProperIP(o.clientIP) && ProperIP(o.serverIP) ==>
              r == if |Wire(o)| <= 65535 then Some(|Wire(o)|) else None
  {
    var length :- CountContent(o);
    length :- CountAddresses(o, length);
    length :- CountNames(o, length);
    length :- CountExtras(o, length);
    length := CountPadding(length);
    WireLength(Countable(o));
    return Some(length);
  }

  /** How much Bytes counts too much for an IP, or too little when negative. */
  function Surplus(ip: Option<seq<byte>>): int {
    if ProperIP(ip) then 0 else 16 - |ip.value|
  }

  lemma {:induction false} CountedFields(o: Operation, k: nat)
    requires k <= |WIRE_ORDER|
    ensures |Encode(Fields(Countable(o), k))|
         == |Encode(Fields(o, k))| + (if k >= 6 then Surplus(o.clientIP) else 0) + (if k >= 7 then Surplus(o.serverIP) else 0)
    decreases k
  {
    if k > 0 {
      CountedFields(o, k - 1);
      EncodeField(o, k);
      EncodeField(Countable(o), k);
      CountedField(o, k);
    }
  }

  lemma CountedField(o: Operation, k: nat)
    requires 0 < k <= |WIRE_ORDER|
    ensures var d, c := FieldData(o, WIRE_ORDER[k - 1]), FieldData(Countable(o), WIRE_ORDER[k - 1]);
            && (c.Some? <==> d.Some?)
            && (c.Some? ==> |c.value| == |d.value| + (if k == 6 then Surplus(o.clientIP) else 0)
                                                   + (if k == 7 then Surplus(o.serverIP) else 0))
            && (c.None? && k == 6 ==> Surplus(o.clientIP) == 0)
            && (c.None? && k == 7 ==> Surplus(o.serverIP) == 0)
  {
    CountedIP(o.clientIP);
    CountedIP(o.serverIP);
  }

  /** Two lengths of unpadded bodies whose packets have the same length. */
  predicate SamePacketLength(n: int, m: int) {
    || n == m
    || (n <= 1013 && m <= 1013)
    || (n <= 1013 && m == 1016) || (n == 1016 && m <= 1013)
    || (n == 1014 && m == 1017) || (n == 1017 && m == 1014)
    || (n == 1015 && m == 1018) || (n == 1018 && m == 1015)
  }

  /** Bytes counts the wire format's true length if and only if the IPs' surplus is zero or
      hidden by the padding. */
  lemma CountExactIff(o: Operation)
    ensures |Wire(Countable(o))| == |Wire(o)| <==>
              SamePacketLength(|Unpadded(o)|, |Unpadded(o)| + Surplus(o.clientIP) + Surplus(o.serverIP))
  {
    CountedFields(o, |WIRE_ORDER|);
    WireLength(o);
    WireLength(Countable(o));
  }

  /** A five-octet IP beside a payload long enough to need no padding is miscounted. */
  lemma MiscountExample() returns (o: Operation)
    ensures o.clientIP.Some? && |o.clientIP.value| == 5 && ProperIP(o.serverIP)
    ensures |Wire(Countable(o))| != |Wire(o)|
  {
    o := ZERO_OPERATION.(payload := Some(Zeros(2000)), clientIP := Some(Zeros(5)));
    LongPayload(o, 2000);
    CountExactIff(o);
  }

  lemma LongPayload(o: Operation, n: nat)
    requires 0 < n == Len(o.payload)
    ensures |Unpadded(o)| >= n
  {
    FieldsGrow(o, 2, |WIRE_ORDER|);
    EncodeField(o, 2);
  }

  // ------------------------------------------------------------------ decoding

  predicate Known(tag: byte) {
    tag in WIRE_ORDER || tag == TAG_PADDING
  }

  /** The lengths the decoder insists on. */
  predicate WellSized(it: Item) {
    && (it.tag == TAG_OPCODE ==> |it.data| == 1)
    && (it.tag == TAG_CLIENT_IP || it.tag == TAG_SERVER_IP ==> |it.data| == 4 || |it.data| == 16)
  }

  /** Items the decoder accepts: proper lengths, and no known tag twice. */
  ghost predicate Admissible(items: seq<Item>) {
    && (forall it :: it in items ==> WellSized(it))
    && (forall t: byte :: Known(t) ==> TagCount(items, t) <= 1)
  }

  function Or<T>(o: Option<T>, default: T): T {
    if o.Some? then o.value else default
  }

  function OrSome(o: Option<seq<byte>>, default: Option<seq<byte>>): Option<seq<byte>> {
    if o.Some? then o else default
  }

  /** The operation that given field data describe, over the fields it had before. */
  function Filled(o: Operation, found: byte -> Option<seq<byte>>): Operation {
    var opcode, ski, digest := found(TAG_OPCODE), found(TAG_SKI), found(TAG_DIGEST);
    Operation(
      if opcode.Some? && |opcode.value| == 1 then opcode.value[0] else o.opcode,
      OrSome(found(TAG_PAYLOAD), o.payload),
      OrSome(found(TAG_EXTRA), o.extra),
      if ski.Some? && |ski.value| == 20 then ski.value else o.ski,
      if digest.Some? && |digest.value| == 32 then digest.value else o.digest,
      OrSome(found(TAG_CLIENT_IP), o.clientIP),
      OrSome(found(TAG_SERVER_IP), o.serverIP),
      Or(found(TAG_SERVER_NAME), o.sni),
      Or(found(TAG_CERT_ID), o.certID),
      Or(found(TAG_CUSTOM_FUNC_NAME), o.customFuncName),
      OrSome(found(TAG_JAEGER_SPAN), o.jaegerSpan))
  }

  function Found(items: seq<Item>): byte -> Option<seq<byte>> {
    t => Lookup(items, t)
  }

  /** The operation the items describe, over the fields it had before. */
  function Assemble(o: Operation, items: seq<Item>): Operation {
    Filled(o, Found(items))
  }

  datatype DecodeError = BeyondEnd | InvalidOpcode | MalformedIP | Duplicate

  /** The switch of UnmarshalBinary on one item; None for an unknown tag. */
  function SetField(o: Operation, it: Item): Result<Option<Operation>, DecodeError> {
    var tag, data := it.tag, it.data;
    if tag == TAG_OPCODE then
      (if |data| != 1 then Err(InvalidOpcode) else Ok(Some(o.(opcode := data[0]))))
    else if tag == TAG_PAYLOAD then Ok(Some(o.(payload := Some(data))))
    else if tag == TAG_EXTRA then Ok(Some(o.(extra := Some(data))))
    else if tag == TAG_SKI then Ok(Some(if |data| == 20 then o.(ski := data) else o))
    else if tag == TAG_DIGEST then Ok(Some(if |data| == 32 then o.(digest := data) else o))
    else if tag == TAG_CLIENT_IP then
      (if |data| != 4 && |data| != 16 then Err(MalformedIP) else Ok(Some(o.(clientIP := Some(data)))))
    else if tag == TAG_SERVER_IP then
      (if |data| != 4 && |data| != 16 then Err(MalformedIP) else Ok(Some(o.(serverIP := Some(data)))))
    else if tag == TAG_SERVER_NAME then Ok(Some(o.(sni := data)))
    else if tag == TAG_CERT_ID then Ok(Some(o.(certID := data)))
    else if tag == TAG_PADDING then Ok(Some(o))
    else if tag == TAG_CUSTOM_FUNC_NAME then Ok(Some(o.(customFuncName := data)))
    else if tag == TAG_JAEGER_SPAN then Ok(Some(o.(jaegerSpan := Some(data))))
    else Ok(None)
  }
}
