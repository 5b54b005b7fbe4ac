/** Operation.UnmarshalBinary (protocol/protocol.go): which bodies it accepts, what it
    makes of them, and that it inverts the encoder. */
module Decoding {
  import opened Wrappers
  import opened Bytes
  import opened Tlv
  import opened Operations

  /** The operation a body decodes to over o, or None when it is rejected. */
  ghost function Decoded(o: Operation, body: seq<byte>): Option<Operation> {
    if Split(body).Some? && Admissible(Split(body).value) then Some(Assemble(o, Split(body).value)) else None
  }

  // ----------------------------------------------------------- one more item

  lemma LookupSnoc(items: seq<Item>, it: Item, tag: byte)
    ensures Lookup(items + [it], tag)
         == if Lookup(items, tag).Some? then Lookup(items, tag) else if it.tag == tag then Some(it.data) else None
    ensures TagCount(items + [it], tag) == TagCount(items, tag) + if it.tag == tag then 1 else 0
  {
    LookupConcat(items, [it], tag);
    assert [it][1..] == [];
  }

  lemma AdmissibleSnoc(items: seq<Item>, it: Item)
    ensures Admissible(items + [it]) <==>
              Admissible(items) && WellSized(it) && (Known(it.tag) ==> TagCount(items, it.tag) == 0)
  {
    forall t: byte ensures TagCount(items + [it], t) == TagCount(items, t) + if it.tag == t then 1 else 0 {
      LookupSnoc(items, it, t);
    }
    var all := items + [it];
    assert all[|items|] == it;
    assert forall i :: 0 <= i < |items| ==> all[i] == items[i];
  }

  lemma AdmissiblePrefix(a: seq<Item>, b: seq<Item>)
    requires Admissible(a + b)
    ensures Admissible(a)
  {
    forall t: byte ensures TagCount(a + b, t) == TagCount(a, t) + TagCount(b, t) {
      LookupConcat(a, b, t);
    }
    assert forall i :: 0 <= i < |a| ==> a[i] == (a + b)[i];
  }

  /** The switch rejects an item exactly when its length is wrong. */
  lemma SetFieldRejects(o: Operation, it: Item)
    ensures SetField(o, it).Err? <==> !WellSized(it)
    ensures SetField(o, it).Ok? ==> (SetField(o, it).value.Some? <==> Known(it.tag))
  {
  }

  /** found' is found with the item's data added, where its tag was missing. */
  ghost predicate Extends(found: byte -> Option<seq<byte>>, found': byte -> Option<seq<byte>>, it: Item) {
    && (Known(it.tag) ==> found(it.tag).None? && found'(it.tag) == Some(it.data))
    && Agree(found, found', it.tag, TAG_OPCODE) && Agree(found, found', it.tag, TAG_PAYLOAD)
    && Agree(found, found', it.tag, TAG_EXTRA) && Agree(found, found', it.tag, TAG_SKI)
    && Agree(found, found', it.tag, TAG_DIGEST) && Agree(found, found', it.tag, TAG_CLIENT_IP)
    && Agree(found, found', it.tag, TAG_SERVER_IP) && Agree(found, found', it.tag, TAG_SERVER_NAME)
    && Agree(found, found', it.tag, TAG_CERT_ID) && Agree(found, found', it.tag, TAG_CUSTOM_FUNC_NAME)
    && Agree(found, found', it.tag, TAG_JAEGER_SPAN)
  }

  ghost predicate Agree(f: byte -> Option<seq<byte>>, g: byte -> Option<seq<byte>>, except: byte, tag: byte) {
    tag != except ==> g(tag) == f(tag)
  }

  lemma SetContentFills(o: Operation, f: byte -> Option<seq<byte>>, g: byte -> Option<seq<byte>>, it: Item)
    requires WellSized(it) && Extends(f, g, it) && it.tag in {TAG_OPCODE, TAG_PAYLOAD, TAG_EXTRA, TAG_SKI, TAG_DIGEST}
    ensures SetField(Filled(o, f), it) == Ok(Some(Filled(o, g)))
  {
  }

  lemma SetAddressFills(o: Operation, f: byte -> Option<seq<byte>>, g: byte -> Option<seq<byte>>, it: Item)
    requires WellSized(it) && Extends(f, g, it) && it.tag in {TAG_CLIENT_IP, TAG_SERVER_IP, TAG_SERVER_NAME}
    ensures SetField(Filled(o, f), it) == Ok(Some(Filled(o, g)))
  {
  }

  lemma SetNameFills(o: Operation, f: byte -> Option<seq<byte>>, g: byte -> Option<seq<byte>>, it: Item)
    requires WellSized(it) && Extends(f, g, it) && it.tag in {TAG_CERT_ID, TAG_CUSTOM_FUNC_NAME, TAG_JAEGER_SPAN}
    ensures SetField(Filled(o, f), it) == Ok(Some(Filled(o, g)))
  {
  }

  /** The switch does to the operation what one more finding does to its description. */
  lemma SetFieldFills(o: Operation, f: byte -> Option<seq<byte>>, g: byte -> Option<seq<byte>>, it: Item)
    requires WellSized(it) && Extends(f, g, it)
    ensures Known(it.tag) ==> SetField(Filled(o, f), it) == Ok(Some(Filled(o, g)))
    ensures !Known(it.tag) ==> SetField(Filled(o, f), it) == Ok(None) && Filled(o, g) == Filled(o, f)
  {
    if it.tag in {TAG_OPCODE, TAG_PAYLOAD, TAG_EXTRA, TAG_SKI, TAG_DIGEST} {
      SetContentFills(o, f, g, it);
    } else if it.tag in {TAG_CLIENT_IP, TAG_SERVER_IP, TAG_SERVER_NAME} {
      SetAddressFills(o, f, g, it);
    } else if it.tag in {TAG_CERT_ID, TAG_CUSTOM_FUNC_NAME, TAG_JAEGER_SPAN} {
      SetNameFills(o, f, g, it);
    } else {
      assert it.tag !in WIRE_ORDER;
    }
  }

  /** The operation after one more item, as the decoder computes it. */
  lemma SetFieldAssembles(o: Operation, items: seq<Item>, it: Item)
    requires WellSized(it) && (Known(it.tag) ==> TagCount(items, it.tag) == 0)
    ensures var r := SetField(Assemble(o, items), it);
            r.Ok? && Assemble(o, items + [it]) == if r.value.Some? then r.value.value else Assemble(o, items)
  {
    LookupCount(items, it.tag);
    LookupSnoc(items, it, it.tag);
    var f, g := Found(items), Found(items + [it]);
    forall t: byte ensures Agree(f, g, it.tag, t) {
      LookupSnoc(items, it, t);
    }
    SetFieldFills(o, f, g, it);
  }

  // ------------------------------------------------------------------ decoder

  function Prepend(items: seq<Item>, rest: Option<seq<Item>>): Option<seq<Item>> {
    if rest.None? then None else Some(items + rest.value)
  }

  lemma PrependOne(items: seq<Item>, it: Item, rest: Option<seq<Item>>)
    ensures Prepend(items, Prepend([it], rest)) == Prepend(items + [it], rest)
  {
    if rest.Some? {
      assert items + ([it] + rest.value) == (items + [it]) + rest.value;
    }
  }

  /** Splitting the rest of a body from position i on. */
  function SplitFrom(body: seq<byte>, i: nat): Option<seq<Item>>
    decreases |body| - i
  {
    if i + 2 >= |body| then Some([])
    else
      var j := i + 3 + ReadU16(body[i + 1..i + 3]);
      if j > |body| then None
      else Prepend([Item(body[i], body[i + 3..j])], SplitFrom(body, j))
  }

  lemma {:induction false} SplitFromIsSplit(body: seq<byte>, i: nat)
    requires i <= |body|
    ensures SplitFrom(body, i) == Split(body[i..])
    decreases |body| - i
  {
    if i + 2 < |body| {
      var s, n := body[i..], ReadU16(body[i + 1..i + 3]);
      assert s[1..3] == body[i + 1..i + 3];
      if i + 3 + n <= |body| {
        SplitFromIsSplit(body, i + 3 + n);
        assert s[3..3 + n] == body[i + 3..i + 3 + n];
        assert s[3 + n..] == body[i + 3 + n..];
      }
    }
  }

  /** A bad item makes the whole body inadmissible. */
  lemma Rejects(body: seq<byte>, items: seq<Item>, it: Item, rest: Option<seq<Item>>)
    requires Split(body) == Prepend(items + [it], rest)
    requires !Admissible(items + [it])
    ensures Split(body).None? || !Admissible(Split(body).value)
  {
    if rest.Some? && Admissible(Split(body).value) {
      AdmissiblePrefix(items + [it], rest.value);
    }
  }

  /** seen marks the known tags that have occurred. */
  ghost predicate Marks(seen: seq<bool>, items: seq<Item>) {
    |seen| == 33 && forall t :: 0 <= t < 33 ==> (seen[t] <==> Known(t) && TagCount(items, t) > 0)
  }

  lemma MarksSnoc(seen: seq<bool>, items: seq<Item>, it: Item)
    requires Marks(seen, items)
    ensures Known(it.tag) ==> it.tag < 33 && Marks(seen[it.tag := true], items + [it])
    ensures !Known(it.tag) ==> Marks(seen, items + [it])
  {
    forall t: byte ensures TagCount(items + [it], t) == TagCount(items, t) + if it.tag == t then 1 else 0 {
      LookupSnoc(items, it, t);
    }
  }

  /** The decoder's state after the items before position i. */
  ghost predicate Progress(o0: Operation, body: seq<byte>, i: nat, o: Operation, seen: seq<bool>, items: seq<Item>) {
    && i <= |body|
    && Split(body) == Prepend(items, SplitFrom(body, i))
    && Admissible(items)
    && o == Assemble(o0, items)
    && Marks(seen, items)
  }

  /** The outcome is the one the body's items call for. */
  ghost predicate Agrees(r: Result<Operation, DecodeError>, o0: Operation, body: seq<byte>) {
    (r.Ok? <==> Decoded(o0, body).Some?) && (r.Ok? ==> r.value == Decoded(o0, body).value)
  }

  /** A turn of the loop ends it, or goes on to a later position. */
  datatype Turn = Stop(res: Result<Operation, DecodeError>) | Go(i: nat, o: Operation, seen: seq<bool>)

  /** What the loop does with an item that ends at position j. */
  function ItemTurn(it: Item, j: nat, o: Operation, seen: seq<bool>): (t: Turn)
    requires |seen| == 33
    ensures t.Go? ==> t.i == j && |t.seen| == 33
  {
    var outcome := SetField(o, it);
    if outcome.Err? then Stop(Err(outcome.error))
    else if outcome.value.None? then Go(j, o, seen)
    else
      SetFieldRejects(o, it);
      if seen[it.tag] then Stop(Err(Duplicate))
      else Go(j, outcome.value.value, seen[it.tag := true])
  }

  function LoopTurn(body: seq<byte>, i: nat, o: Operation, seen: seq<bool>): (t: Turn)
    requires |seen| == 33
    ensures t.Go? ==> i < t.i <= |body| && |t.seen| == 33
  {
    if i + 2 >= |body| then Stop(Ok(o))
    else
      var n := ReadU16(body[i + 1..i + 3]);
      if i + 3 + n > |body| then Stop(Err(BeyondEnd))
      else ItemTurn(Item(body[i], body[i + 3..i + 3 + n]), i + 3 + n, o, seen)
  }

  /** The loop of UnmarshalBinary from position i on, as a recursion. */
  function DecodeFrom(body: seq<byte>, i: nat, o: Operation, seen: seq<bool>): Result<Operation, DecodeError>
    requires |seen| == 33
    decreases |body| - i
  {
    match LoopTurn(body, i, o, seen)
    case Stop(res) => res
    case Go(j, o', seen') => DecodeFrom(body, j, o', seen')
  }

  /** A turn settles the outcome or keeps the decoder's state right. */
  ghost predicate TurnOk(o0: Operation, body: seq<byte>, t: Turn, items: seq<Item>) {
    && (t.Stop? ==> Agrees(t.res, o0, body))
    && (t.Go? ==> Progress(o0, body, t.i, t.o, t.seen, items))
  }

  /** An item is either taken in or condemns the body. */
  lemma TakeItem(o0: Operation, body: seq<byte>, j: nat, o: Operation, seen: seq<bool>, items: seq<Item>, it: Item)
    requires j <= |body| && Admissible(items) && o == Assemble(o0, items) && Marks(seen, items)
    requires Split(body) == Prepend(items, Prepend([it], SplitFrom(body, j)))
    ensures TurnOk(o0, body, ItemTurn(it, j, o, seen), items + [it])
  {
    var rest := SplitFrom(body, j);
    PrependOne(items, it, rest);
    AdmissibleSnoc(items, it);
    SetFieldRejects(o, it);
    MarksSnoc(seen, items, it);
    if Admissible(items + [it]) {
      SetFieldAssembles(o0, items, it);
    } else {
      Rejects(body, items, it, rest);
    }
  }

  lemma TurnAtEnd(o0: Operation, body: seq<byte>, i: nat, o: Operation, seen: seq<bool>, items: seq<Item>)
    requires Progress(o0, body, i, o, seen, items) && i + 2 >= |body|
    ensures TurnOk(o0, body, LoopTurn(body, i, o, seen), items)
  {
    Finish(o0, body, i, o, seen, items);
  }

  lemma TurnOverrun(o0: Operation, body: seq<byte>, i: nat, o: Operation, seen: seq<bool>, items: seq<Item>)
    requires Progress(o0, body, i, o, seen, items) && i + 2 < |body| && i + 3 + ReadU16(body[i + 1..i + 3]) > |body|
    ensures TurnOk(o0, body, LoopTurn(body, i, o, seen), items)
  {
    assert SplitFrom(body, i) == None;
  }

  lemma ItemAt(body: seq<byte>, i: nat, o: Operation, seen: seq<bool>) returns (it: Item, j: nat)
    requires i + 2 < |body| && i + 3 + ReadU16(body[i + 1..i + 3]) <= |body| && |seen| == 33
    ensures i < j <= |body|
    ensures SplitFrom(body, i) == Prepend([it], SplitFrom(body, j))
    ensures LoopTurn(body, i, o, seen) == ItemTurn(it, j, o, seen)
  {
    j := i + 3 + ReadU16(body[i + 1..i + 3]);
    it := Item(body[i], body[i + 3..j]);
  }

  /** One turn of the loop settles the outcome or keeps the decoder's state right. */
  lemma TakeTurn(o0: Operation, body: seq<byte>, i: nat, o: Operation, seen: seq<bool>, items: seq<Item>)
    returns (items': seq<Item>)
    requires Progress(o0, body, i, o, seen, items)
    ensures TurnOk(o0, body, LoopTurn(body, i, o, seen), items')
  {
    items' := items;
    if i + 2 >= |body| {
      TurnAtEnd(o0, body, i, o, seen, items);
    } else if i + 3 + ReadU16(body[i + 1..i + 3]) > |body| {
      TurnOverrun(o0, body, i, o, seen, items);
    } else {
      var it, j := ItemAt(body, i, o, seen);
      TakeItem(o0, body, j, o, seen, items, it);
      items' := items + [it];
    }
  }

  /** The loop accepts exactly the admissible bodies and assembles their items. */
  lemma {:induction false} DecodeFromExact(o0: Operation, body: seq<byte>, i: nat, o: Operation, seen: seq<bool>, items: seq<Item>)
    requires Progress(o0, body, i, o, seen, items)
    ensures Agrees(DecodeFrom(body, i, o, seen), o0, body)
    decreases |body| - i
  {
    var items' := TakeTurn(o0, body, i, o, seen, items);
    var t := LoopTurn(body, i, o, seen);
    if t.Go? {
      DecodeFromExact(o0, body, t.i, t.o, t.seen, items');
    }
  }

  /** The switch on an item's tag and the check for duplicates after it. */
  method StoreItem(it: Item, j: nat, o: Operation, seen: seq<bool>) returns (t: Turn)
    requires |seen| == 33
    ensures t == ItemTurn(it, j, o, seen)
  {
    var outcome := SetField(o, it);
    if outcome.Err? {
      return Stop(Err(outcome.error));
    }
    if outcome.value.None? {
      return Go(j, o, seen);
    }
    SetFieldRejects(o, it);
    if seen[it.tag] {
      return Stop(Err(Duplicate));
    }
    return Go(j, outcome.value.value, seen[it.tag := true]);
  }

  /** The body of the loop. */
  method TurnOnce(body: seq<byte>, i: nat, o: Operation, seen: seq<bool>) returns (t: Turn)
    requires i + 2 < |body| && |seen| == 33
    ensures t == LoopTurn(body, i, o, seen)
  {
    var tag := body[i];
    var length := ReadU16(body[i + 1..i + 3]);
    if i + 3 + length > |body| {
      return Stop(Err(BeyondEnd));
    }
    t := StoreItem(Item(tag, body[i + 3..i + 3 + length]), i + 3 + length, o, seen);
  }

  /** The loop of Operation.UnmarshalBinary. */
  method DecodeLoop(o0: Operation, body: seq<byte>, unseen: seq<bool>) returns (res: Result<Operation, DecodeError>)
    requires |unseen| == 33
    ensures res == DecodeFrom(body, 0, o0, unseen)
  {
    var i, o, seen := 0, o0, unseen;
    while i + 2 < |body|
      invariant 0 <= i <= |body| && |seen| == 33
      invariant DecodeFrom(body, i, o, seen) == DecodeFrom(body, 0, o0, unseen)
    {
      var t := TurnOnce(body, i, o, seen);
      if t.Stop? {
        return t.res;
      }
      i, o, seen := t.i, t.o, t.seen;
    }
    return Ok(o);
  }

  /** UnmarshalBinary: total on every body; it accepts exactly the bodies whose items are
      admissible, and fills the operation from them. */
  method UnmarshalBinary(o0: Operation, body: seq<byte>) returns (res: Result<Operation, DecodeError>)
    ensures res.Ok? <==> Decoded(o0, body).Some?
    ensures res.Ok? ==> res.value == Decoded(o0, body).value
  {
    var unseen := seq(33, _ => false);
    Start(o0, body, unseen);
    DecodeFromExact(o0, body, 0, o0, unseen, []);
    res := DecodeLoop(o0, body, unseen);
  }

  lemma Finish(o0: Operation, body: seq<byte>, i: nat, o: Operation, seen: seq<bool>, items: seq<Item>)
    requires Progress(o0, body, i, o, seen, items) && i + 2 >= |body|
    ensures Decoded(o0, body) == Some(o)
  {
    assert items + [] == items;
  }

  lemma Start(o0: Operation, body: seq<byte>, seen: seq<bool>)
    requires |seen| == 33 && forall t :: 0 <= t < 33 ==> !seen[t]
    ensures Progress(o0, body, 0, o0, seen, [])
  {
    assert body[0..] == body;
    SplitFromIsSplit(body, 0);
    assert Split(body).Some? ==> [] + Split(body).value == Split(body).value;
  }

  // ------------------------------------------------------ properties of decoding

  /** The accepted bodies are those that are admissible items back to back, followed by
      at most two octets. */
  lemma AcceptedBodies(o: Operation, body: seq<byte>)
    ensures Decoded(o, body).Some? <==> exists items :: SplitsInto(body, items) && Admissible(items)
  {
    if Decoded(o, body).Some? {
      SplitExact(body, Split(body).value);
    }
    if exists items :: SplitsInto(body, items) && Admissible(items) {
      var items :| SplitsInto(body, items) && Admissible(items);
      SplitExact(body, items);
    }
  }

  /** An operation depends only on the data found for the field tags. */
  lemma SameFilled(o: Operation, f: byte -> Option<seq<byte>>, g: byte -> Option<seq<byte>>)
    requires forall k :: 0 <= k < |WIRE_ORDER| ==> f(WIRE_ORDER[k]) == g(WIRE_ORDER[k])
    ensures Filled(o, f) == Filled(o, g)
  {
    assert WIRE_ORDER[0] == TAG_OPCODE && WIRE_ORDER[1] == TAG_PAYLOAD && WIRE_ORDER[2] == TAG_EXTRA
        && WIRE_ORDER[3] == TAG_SKI && WIRE_ORDER[4] == TAG_DIGEST && WIRE_ORDER[5] == TAG_CLIENT_IP
        && WIRE_ORDER[6] == TAG_SERVER_IP && WIRE_ORDER[7] == TAG_SERVER_NAME && WIRE_ORDER[8] == TAG_CERT_ID
        && WIRE_ORDER[9] == TAG_CUSTOM_FUNC_NAME && WIRE_ORDER[10] == TAG_JAEGER_SPAN;
  }

  lemma SameDescription(o: Operation, a: seq<Item>, b: seq<Item>)
    requires forall t: byte :: t in WIRE_ORDER ==> Lookup(a, t) == Lookup(b, t)
    ensures Assemble(o, a) == Assemble(o, b)
  {
    SameFilled(o, Found(a), Found(b));
  }

  lemma AdmissiblePermuted(a: seq<Item>, b: seq<Item>)
    requires multiset(a) == multiset(b) && Admissible(a)
    ensures Admissible(b)
  {
    forall t: byte ensures TagCount(a, t) == TagCount(b, t) {
      TagCountPermuted(a, b, t);
    }
    forall i | 0 <= i < |b| ensures WellSized(b[i]) {
      assert b[i] in multiset(a);
      assert b[i] in a;
    }
  }

  lemma LookupPermuted(a: seq<Item>, b: seq<Item>, tag: byte)
    requires multiset(a) == multiset(b) && TagCount(a, tag) <= 1
    ensures Lookup(a, tag) == Lookup(b, tag)
  {
    TagCountPermuted(a, b, tag);
    LookupCount(a, tag);
    LookupCount(b, tag);
    if Lookup(a, tag).Some? {
      var data := Lookup(a, tag).value;
      LookupUnique(a, tag, data);
      assert Item(tag, data) in multiset(a);
      LookupUnique(b, tag, data);
    }
  }

  /** Reordering the items of a body changes neither acceptance nor the result. */
  lemma PermutationInvariant(o: Operation, a: seq<Item>, b: seq<Item>, ta: seq<byte>, tb: seq<byte>)
    requires Sized(a) && Sized(b) && multiset(a) == multiset(b) && |ta| <= 2 && |tb| <= 2
    ensures Decoded(o, Encode(a) + ta) == Decoded(o, Encode(b) + tb)
  {
    SplitEncode(a, ta);
    SplitEncode(b, tb);
    if Admissible(a) {
      AdmissiblePermuted(a, b);
      forall t: byte | t in WIRE_ORDER ensures Lookup(a, t) == Lookup(b, t) {
        assert Known(t);
        LookupPermuted(a, b, t);
      }
      SameDescription(o, a, b);
    } else if Admissible(b) {
      AdmissiblePermuted(b, a);
    }
  }

  lemma InsertUnknown(a: seq<Item>, u: Item, b: seq<Item>, tag: byte)
    requires u.tag != tag
    ensures Lookup(a + [u] + b, tag) == Lookup(a + b, tag)
    ensures TagCount(a + [u] + b, tag) == TagCount(a + b, tag)
  {
    LookupSnoc(a, u, tag);
    LookupConcat(a + [u], b, tag);
    LookupConcat(a, b, tag);
  }

  lemma WellSizedInsert(a: seq<Item>, u: Item, b: seq<Item>)
    requires WellSized(u)
    ensures (forall it :: it in a + [u] + b ==> WellSized(it)) <==> (forall it :: it in a + b ==> WellSized(it))
  {
    assert forall it :: it in a + [u] + b <==> it in a + b || it == u;
  }

  lemma AdmissibleInsert(a: seq<Item>, u: Item, b: seq<Item>)
    requires !Known(u.tag)
    ensures Admissible(a + [u] + b) <==> Admissible(a + b)
  {
    forall t: byte | Known(t) ensures TagCount(a + [u] + b, t) == TagCount(a + b, t) {
      InsertUnknown(a, u, b, t);
    }
    WellSizedInsert(a, u, b);
  }

  /** An item with an unknown tag, inserted anywhere, is ignored. */
  lemma UnknownIgnored(o: Operation, a: seq<Item>, u: Item, b: seq<Item>, trailing: seq<byte>)
    requires Sized(a) && Sized(b) && |u.data| < 65536 && !Known(u.tag) && |trailing| <= 2
    ensures Decoded(o, Encode(a + [u] + b) + trailing) == Decoded(o, Encode(a + b) + trailing)
  {
    SplitEncode(a + [u] + b, trailing);
    SplitEncode(a + b, trailing);
    AdmissibleInsert(a, u, b);
    if Admissible(a + b) {
      forall t: byte | t in WIRE_ORDER ensures Lookup(a + [u] + b, t) == Lookup(a + b, t) {
        InsertUnknown(a, u, b, t);
      }
      SameDescription(o, a + [u] + b, a + b);
    }
  }

  // ---------------------------------------------------------------- round trip

  function NormalIP(ip: Option<seq<byte>>): Option<seq<byte>> {
    if ip.None? then None else Some(WireIP(ip.value))
  }

  function NonEmpty(s: Option<seq<byte>>): Option<seq<byte>> {
    if Len(s) > 0 then s else None
  }

  /** What survives the wire: empty payloads become nil and IPv4 addresses four octets. */
  function NormalForm(o: Operation): Operation {
    o.(payload := NonEmpty(o.payload), extra := NonEmpty(o.extra),
       clientIP := NormalIP(o.clientIP), serverIP := NormalIP(o.serverIP))
  }

  /** The fields written are found again, each once. */
  lemma {:induction false} LookupFields(o: Operation, k: nat, tag: byte)
    requires k <= |WIRE_ORDER|
    ensures tag in WIRE_ORDER[..k] ==> Lookup(Fields(o, k), tag) == FieldData(o, tag) && TagCount(Fields(o, k), tag) <= 1
    ensures tag !in WIRE_ORDER[..k] ==> Lookup(Fields(o, k), tag) == None && TagCount(Fields(o, k), tag) == 0
    decreases k
  {
    if k > 0 {
      LookupFields(o, k - 1, tag);
      var last := WIRE_ORDER[k - 1];
      assert WIRE_ORDER[..k] == WIRE_ORDER[..k - 1] + [last];
      OrderDistinct(k);
      LookupConcat(Fields(o, k - 1), Field(o, last), tag);
      LookupField(o, last, tag);
    }
  }

  lemma OrderDistinct(k: nat)
    requires 0 < k <= |WIRE_ORDER|
    ensures WIRE_ORDER[k - 1] !in WIRE_ORDER[..k - 1]
  {
  }

  lemma LookupField(o: Operation, last: byte, tag: byte)
    ensures Lookup(Field(o, last), tag) == if tag == last then FieldData(o, tag) else None
    ensures TagCount(Field(o, last), tag) == if tag == last && FieldData(o, tag).Some? then 1 else 0
  {
    var f := Field(o, last);
    if f != [] {
      assert f[1..] == [];
    }
  }

  lemma LookupWire(o: Operation, tag: byte)
    ensures tag in WIRE_ORDER ==> Lookup(WireItems(o), tag) == FieldData(o, tag)
    ensures TagCount(WireItems(o), tag) <= 1
  {
    var fields, p := Fields(o, |WIRE_ORDER|), Padding(|Unpadded(o)|);
    LookupFields(o, |WIRE_ORDER|, tag);
    assert WIRE_ORDER[..|WIRE_ORDER|] == WIRE_ORDER;
    LookupConcat(fields, p, tag);
    if p != [] {
      assert p[1..] == [];
    }
    if tag !in WIRE_ORDER && tag != TAG_PADDING {
      LookupCount(fields, tag);
    }
  }

  /** Items with data of the lengths the decoder wants, for proper IPs. */
  lemma {:induction false} FieldsWellSized(o: Operation, k: nat)
    requires ProperIP(o.clientIP) && ProperIP(o.serverIP) && k <= |WIRE_ORDER|
    ensures forall i :: 0 <= i < |Fields(o, k)| ==> WellSized(Fields(o, k)[i])
    decreases k
  {
    if k > 0 {
      FieldsWellSized(o, k - 1);
      FieldWellSized(o, WIRE_ORDER[k - 1]);
    }
  }

  lemma FieldWellSized(o: Operation, tag: byte)
    requires ProperIP(o.clientIP) && ProperIP(o.serverIP)
    ensures forall i :: 0 <= i < |Field(o, tag)| ==> WellSized(Field(o, tag)[i])
  {
  }

  lemma {:induction false} SizedByTotal(items: seq<Item>)
    ensures |Encode(items)| <= 65535 ==> Sized(items)
  {
    if items != [] {
      SizedByTotal(items[1..]);
      assert items == [items[0]] + items[1..];
    }
  }

  lemma AssembledNormal(o: Operation)
    ensures Assemble(ZERO_OPERATION, WireItems(o)) == NormalForm(o)
  {
    forall k | 0 <= k < |WIRE_ORDER| ensures Lookup(WireItems(o), WIRE_ORDER[k]) == FieldData(o, WIRE_ORDER[k]) {
      LookupWire(o, WIRE_ORDER[k]);
    }
    SameFilled(ZERO_OPERATION, Found(WireItems(o)), t => FieldData(o, t));
    FilledNormal(o);
  }

  lemma FilledNormal(o: Operation)
    ensures Filled(ZERO_OPERATION, t => FieldData(o, t)) == NormalForm(o)
  {
  }

  /** Decoding the encoding of an operation gives its normal form, and fails exactly when
      an IP is neither four nor sixteen octets. */
  lemma RoundTrip(o: Operation)
    requires |Wire(o)| <= 65535
    ensures Decoded(ZERO_OPERATION, Wire(o))
         == if ProperIP(o.clientIP) && ProperIP(o.serverIP) then Some(NormalForm(o)) else None
  {
    var items := WireItems(o);
    SizedByTotal(items);
    SplitEncode(items, []);
    assert Wire(o) + [] == Wire(o);
    forall t: byte ensures TagCount(items, t) <= 1 {
      LookupWire(o, t);
    }
    if ProperIP(o.clientIP) && ProperIP(o.serverIP) {
      FieldsWellSized(o, |WIRE_ORDER|);
      AssembledNormal(o);
    } else {
      ImproperItem(o, if ProperIP(o.clientIP) then TAG_SERVER_IP else TAG_CLIENT_IP);
    }
  }

  /** What comes back of each field: all as it was, but empty payload and extra are absent,
      and an IPv4 address in sixteen octets has its four. */
  lemma RoundTripFields(o: Operation)
    requires |Wire(o)| <= 65535 && ProperIP(o.clientIP) && ProperIP(o.serverIP)
    ensures Decoded(ZERO_OPERATION, Wire(o)).Some?
    ensures var r := Decoded(ZERO_OPERATION, Wire(o)).value;
            && r.opcode == o.opcode && r.ski == o.ski && r.digest == o.digest
            && r.sni == o.sni && r.certID == o.certID && r.customFuncName == o.customFuncName
            && r.jaegerSpan == o.jaegerSpan
            && r.payload == (if o.payload == Some([]) then None else o.payload)
            && r.extra == (if o.extra == Some([]) then None else o.extra)
            && SameIP(o.clientIP, r.clientIP) && SameIP(o.serverIP, r.serverIP)
  {
    RoundTrip(o);
    if o.clientIP.Some? {
      WireIPs(o.clientIP.value);
    }
    if o.serverIP.Some? {
      WireIPs(o.serverIP.value);
    }
  }

  /** An IP field before and after: unchanged, but a mapped IPv4 address is shortened. */
  predicate SameIP(before: Option<seq<byte>>, after: Option<seq<byte>>) {
    if before.Some? && Mapped(before.value) then
      after == Some([before.value[12], before.value[13], before.value[14], before.value[15]])
    else after == before
  }

  /** An improper IP is written as an item of a length the decoder refuses. */
  lemma ImproperItem(o: Operation, tag: byte)
    requires (tag == TAG_CLIENT_IP && !ProperIP(o.clientIP)) || (tag == TAG_SERVER_IP && !ProperIP(o.serverIP))
    ensures exists it :: it in WireItems(o) && !WellSized(it)
  {
    LookupWire(o, tag);
    LookupUnique(WireItems(o), tag, FieldData(o, tag).value);
    assert !WellSized(Item(tag, FieldData(o, tag).value));
  }

  /** The decoder's promise about IPs. */
  lemma DecodedIPs(o: Operation, body: seq<byte>)
    requires ProperIP(o.clientIP) && ProperIP(o.serverIP) && Decoded(o, body).Some?
    ensures ProperIP(Decoded(o, body).value.clientIP) && ProperIP(Decoded(o, body).value.serverIP)
  {
    var items := Split(body).value;
    FoundWellSized(items, TAG_CLIENT_IP);
    FoundWellSized(items, TAG_SERVER_IP);
  }

  lemma FoundWellSized(items: seq<Item>, tag: byte)
    requires Admissible(items) && Known(tag)
    ensures var d := Lookup(items, tag); d.Some? ==> WellSized(Item(tag, d.value))
  {
    var d := Lookup(items, tag);
    if d.Some? {
      LookupUnique(items, tag, d.value);
    }
  }

  /** Whatever the decoder accepts, it accepts again once re-encoded, in normal form. */
  lemma DecodedAgain(body: seq<byte>)
    requires Decoded(ZERO_OPERATION, body).Some? && |Wire(Decoded(ZERO_OPERATION, body).value)| <= 65535
    ensures Decoded(ZERO_OPERATION, Wire(Decoded(ZERO_OPERATION, body).value))
         == Some(NormalForm(Decoded(ZERO_OPERATION, body).value))
  {
    DecodedIPs(ZERO_OPERATION, body);
    RoundTrip(Decoded(ZERO_OPERATION, body).value);
  }

  lemma {:induction false} SameFields(o: Operation, p: Operation, k: nat)
    requires k <= |WIRE_ORDER|
    requires forall t: byte :: FieldData(o, t) == FieldData(p, t)
    ensures Fields(o, k) == Fields(p, k)
    decreases k
  {
    if k > 0 {
      SameFields(o, p, k - 1);
      assert Field(o, WIRE_ORDER[k - 1]) == Field(p, WIRE_ORDER[k - 1]);
    }
  }

  /** The normal form has the same wire format, and is its own normal form. */
  lemma NormalFormSameWire(o: Operation)
    ensures Wire(NormalForm(o)) == Wire(o)
    ensures NormalForm(NormalForm(o)) == NormalForm(o)
  {
    forall t: byte ensures FieldData(NormalForm(o), t) == FieldData(o, t) {
    }
    SameFields(NormalForm(o), o, |WIRE_ORDER|);
  }
}
