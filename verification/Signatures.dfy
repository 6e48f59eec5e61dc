/** What a MESSAGE-INTEGRITY signature covers: the bytes before it and nothing behind it. The client
    reads attributes wherever they are, although RFC 8489, section 14.5, says to ignore those behind. */
module Signatures {
  import opened Bytes
  import opened Addresses
  import opened StunMessages
  import opened StunBuilder

  // ---------------------------------------------------------------- walks that stop early

  function NextPosition(raw: bytes, position: nat): nat
    requires Walks(raw, position) && position < |raw|
  {
    position + 4 + Padded(LengthAt(raw, position))
  }

  /** The walk from `position` comes to `end`. */
  predicate Boundary(raw: bytes, position: nat, end: nat)
    requires Walks(raw, position)
    decreases |raw| - position
  {
    position == end || (position < |raw| && position < end && Boundary(raw, NextPosition(raw, position), end))
  }

  /** Two messages with equal bytes from `from` to `end`, where the second ends. */
  ghost predicate Alike(a: bytes, b: bytes, from: nat, end: nat) {
    end == |b| <= |a| && forall k :: from <= k < end ==> a[k] == b[k]
  }

  /** The walk over the shorter message reports what the one over the longer reports up to there. */
  lemma {:induction false} CutWalk(a: bytes, b: bytes, position: nat, end: nat)
    requires Walks(a, position) && Boundary(a, position, end) && Alike(a, b, position, end)
    ensures Walks(b, position) && Walks(a, end)
    ensures AttributesAt(a, position) == AttributesAt(b, position) + AttributesAt(a, end)
    ensures position <= end && (end - position) % 4 == 0
    decreases |a| - position
  {
    hide LengthAt;
    hide AttributeAt;
    hide Padded;
    if position == end {
      assert AttributesAt(b, position) == [];
    } else {
      var next := NextPosition(a, position);
      CutWalk(a, b, next, end);
      SameHere(a, b, position, next, end);
      StepAligned(a, position);
      Mod4Sum(next - position, end - next);
      hide Boundary;
      hide Alike;
      assert AttributesAt(a, position) == [AttributeAt(a, position)] + AttributesAt(a, next);
      assert AttributesAt(b, position) == [AttributeAt(b, position)] + AttributesAt(b, next);
    }
  }

  lemma StepAligned(raw: bytes, position: nat)
    requires Walks(raw, position) && position < |raw|
    ensures position < NextPosition(raw, position) && (NextPosition(raw, position) - position) % 4 == 0
  {
    hide LengthAt;
    hide Padded;
  }

  lemma SameHere(a: bytes, b: bytes, position: nat, next: nat, end: nat)
    requires Walks(a, position) && position < |a| && next == NextPosition(a, position) <= end
    requires Alike(a, b, position, end) && Walks(b, next)
    ensures Walks(b, position) && position < |b| && NextPosition(b, position) == next
    ensures AttributeAt(a, position) == AttributeAt(b, position)
  {
    hide *;
    Fits(a, position);
    SameLength(a, b, position, end);
    SameWalk(a, b, position, next, end);
    SliceAlike(a, b, position, end, position, position + 2);
    SliceAlike(a, b, position, end, position + 4, position + 4 + LengthAt(a, position));
    SameAttribute(a, b, position);
  }

  lemma Fits(raw: bytes, position: nat)
    requires Walks(raw, position) && position < |raw|
    ensures position + 4 + LengthAt(raw, position) <= NextPosition(raw, position) <= |raw|
  {
    hide LengthAt;
    hide Padded;
  }

  lemma SameWalk(a: bytes, b: bytes, position: nat, next: nat, end: nat)
    requires Walks(a, position) && position < |a| && next == NextPosition(a, position) <= end == |b|
    requires position + 4 <= end && LengthAt(a, position) == LengthAt(b, position) && Walks(b, next)
    ensures Walks(b, position) && position < |b| && NextPosition(b, position) == next
  {
    hide LengthAt;
    hide Padded;
  }

  lemma SameAttribute(a: bytes, b: bytes, position: nat)
    requires Walks(a, position) && position < |a| && Walks(b, position) && position < |b|
    requires LengthAt(a, position) == LengthAt(b, position)
    requires position + 4 + LengthAt(a, position) <= |a| && position + 4 + LengthAt(a, position) <= |b|
    requires a[position..position + 2] == b[position..position + 2]
    requires a[position + 4..position + 4 + LengthAt(a, position)]
             == b[position + 4..position + 4 + LengthAt(a, position)]
    ensures AttributeAt(a, position) == AttributeAt(b, position)
  {
    hide LengthAt;
    hide FromBe16;
    hide Alias;
  }

  lemma SameLength(a: bytes, b: bytes, position: nat, end: nat)
    requires Alike(a, b, position, end) && position + 4 <= end
    ensures end == |b| <= |a| && LengthAt(a, position) == LengthAt(b, position)
  {
    SliceAlike(a, b, position, end, position + 2, position + 4);
    hide Alike;
    hide FromBe16;
  }

  lemma SliceAlike(a: bytes, b: bytes, from: nat, end: nat, i: nat, j: nat)
    requires Alike(a, b, from, end) && from <= i <= j <= end
    ensures end == |b| <= |a| && a[i..j] == b[i..j]
  {
  }

  /** The walk comes to the end of each attribute it reports. */
  lemma {:induction false} BoundaryBehind(raw: bytes, position: nat, x: Attribute)
    requires Walks(raw, position) && x in AttributesAt(raw, position)
    ensures Boundary(raw, position, x.headerStart + 4 + Padded(|x.value|))
    ensures position <= x.headerStart && x.headerStart + 4 + Padded(|x.value|) <= |raw|
    decreases |raw| - position
  {
    var next := NextPosition(raw, position);
    if x == AttributeAt(raw, position) {
      assert Boundary(raw, next, next);
    } else {
      BoundaryBehind(raw, next, x);
    }
    hide Padded;
    hide LengthAt;
  }

  lemma {:induction false} FindJoined(a: seq<Attribute>, b: seq<Attribute>, target: u16)
    ensures Find(a + b, target) == if Find(a, target).Some? then Find(a, target) else Find(b, target)
  {
    if a == [] {
      assert a + b == b;
    } else if a[0].kind != target {
      assert (a + b)[1..] == a[1..] + b;
      FindJoined(a[1..], b, target);
    }
  }

  // ---------------------------------------------------------------- what a signature covers

  /** The message cut off behind its signature, its length field made to fit. */
  function Cut(message: Message, signature: Attribute): bytes
    requires HEADER_SIZE <= signature.headerStart && signature.headerStart + 24 <= |message.raw|
    requires signature.headerStart + 24 - HEADER_SIZE <= MAX_LENGTH
  {
    var end := signature.headerStart + 24;
    message.raw[..2] + Be16(end - HEADER_SIZE) + message.raw[4..end]
  }

  lemma CutBytes(message: Message, signature: Attribute)
    requires HEADER_SIZE <= signature.headerStart && signature.headerStart + 24 <= |message.raw|
    requires signature.headerStart + 24 - HEADER_SIZE <= MAX_LENGTH
    ensures var cut, end := Cut(message, signature), signature.headerStart + 24;
            && |cut| == end && Alike(message.raw, cut, 4, end)
            && cut[..2] == message.raw[..2] && FromBe16(cut[2..4]) == end - HEADER_SIZE
  {
    var cut, size := Cut(message, signature), Be16(signature.headerStart + 24 - HEADER_SIZE);
    assert cut[2..4] == size;
    assert cut[..2] == message.raw[..2];
  }

  /** A message that verifies still does when everything behind its signature is cut off; and then it has
      exactly those of its attributes that do not lie behind. So an attribute the client uses is vouched
      for by the signature exactly when the first one of its kind lies before it. */
  lemma CutVerifies(crypto: StunCrypto, message: Message, key: Octets16)
    requires Decode(message.raw) == Ok(message) && VerifyIntegrity(crypto, message, Some(key))
    ensures message.Attribute(ATTR_MESSAGE_INTEGRITY).Some?
    ensures var signature := message.Attribute(ATTR_MESSAGE_INTEGRITY).value;
            && HEADER_SIZE <= signature.headerStart && signature.headerStart + 24 <= |message.raw|
            && signature.headerStart + 24 - HEADER_SIZE <= MAX_LENGTH
            && var short := Decode(Cut(message, signature));
               && short.Ok? && short.value.kind == message.kind
               && short.value.transaction == message.transaction
               && VerifyIntegrity(crypto, short.value, Some(key))
               && (forall target: u16 ::
                     var found := message.Attribute(target);
                     short.value.Attribute(target)
                     == if found.Some? && found.value.headerStart <= signature.headerStart then found else None)
  {
    hide Decode;
    hide AttributesAt;
    hide Walks;
    hide Find;
    hide Cut;
    hide VerifyIntegrity;
    hide Boundary;
    hide Alike;
    SignatureFits(crypto, message, key);
    var signature := message.Attribute(ATTR_MESSAGE_INTEGRITY).value;
    BoundaryBehind(message.raw, HEADER_SIZE, signature);
    PaddedSignature();
    CutBytes(message, signature);
    var cut, end := Cut(message, signature), signature.headerStart + 24;
    AlikeLater(message.raw, cut, 4, HEADER_SIZE, end);
    CutWalk(message.raw, cut, HEADER_SIZE, end);
    CutDecodes(message, signature);
    var short := Message(cut, message.kind, message.transaction);
    forall target: u16
      ensures short.Attribute(target)
              == (var found := message.Attribute(target);
                  if found.Some? && found.value.headerStart <= signature.headerStart then found else None)
    {
      CutFinds(message, short, signature, target);
    }
    VerifiesAgain(crypto, message, short, signature, key);
  }

  lemma PaddedSignature()
    ensures Padded(20) == 20
  {
  }

  lemma AlikeLater(a: bytes, b: bytes, from: nat, next: nat, end: nat)
    requires Alike(a, b, from, end) && from <= next <= end
    ensures Alike(a, b, next, end)
  {
  }

  lemma SignatureFits(crypto: StunCrypto, message: Message, key: Octets16)
    requires message.Valid() && VerifyIntegrity(crypto, message, Some(key))
    ensures message.Attribute(ATTR_MESSAGE_INTEGRITY).Some?
    ensures var signature := message.Attribute(ATTR_MESSAGE_INTEGRITY).value;
            && signature in message.Attributes() && |signature.value| == 20
            && signature.headerStart + 24 - HEADER_SIZE <= MAX_LENGTH
  {
  }

  lemma VerifiesAgain(crypto: StunCrypto, message: Message, short: Message, signature: Attribute,
                      key: Octets16)
    requires message.Valid() && short.Valid() && VerifyIntegrity(crypto, message, Some(key))
    requires message.Attribute(ATTR_MESSAGE_INTEGRITY) == Some(signature)
    requires short.Attribute(ATTR_MESSAGE_INTEGRITY) == Some(signature)
    requires HEADER_SIZE <= signature.headerStart && signature.headerStart + 24 <= |message.raw|
    requires signature.headerStart + 24 - HEADER_SIZE <= MAX_LENGTH
    requires short.raw == Cut(message, signature)
    ensures VerifyIntegrity(crypto, short, Some(key))
  {
    CutHashes(message, signature);
    hide Cut;
    hide Walks;
    hide AttributesAt;
    hide Find;
  }

  lemma CutDecodes(message: Message, signature: Attribute)
    requires Decode(message.raw) == Ok(message)
    requires HEADER_SIZE <= signature.headerStart && signature.headerStart + 24 <= |message.raw|
    requires signature.headerStart + 24 - HEADER_SIZE <= MAX_LENGTH && signature.headerStart % 4 == 0
    requires Walks(Cut(message, signature), HEADER_SIZE)
    ensures var cut := Cut(message, signature);
            Decode(cut) == Ok(Message(cut, message.kind, message.transaction))
  {
    hide Walks;
    hide Cut;
    CutBytes(message, signature);
    var cut, raw := Cut(message, signature), message.raw;
    assert cut[0..2] == cut[..2] && raw[0..2] == raw[..2];
    assert cut[4..8] == raw[4..8] && cut[8..20] == raw[8..20];
  }

  lemma CutFinds(message: Message, short: Message, signature: Attribute, target: u16)
    requires message.Valid() && short.Valid() && signature.headerStart + 24 == |short.raw|
    requires Walks(message.raw, |short.raw|)
    requires message.Attributes() == short.Attributes() + AttributesAt(message.raw, |short.raw|)
    requires signature in message.Attributes() && |signature.value| == 20
    ensures short.Attribute(target)
            == (var found := message.Attribute(target);
                if found.Some? && found.value.headerStart <= signature.headerStart then found else None)
  {
    hide AttributesAt;
    hide Find;
    hide Walks;
    var kept, behind := short.Attributes(), AttributesAt(message.raw, |short.raw|);
    FindJoined(kept, behind, target);
    AttributesWithin(message.raw, |short.raw|);
    assert forall x :: x in message.Attributes() <==> x in kept || x in behind;
    AttributesWithin(short.raw, HEADER_SIZE);
    assert signature in kept;
    if Find(kept, target).Some? {
      var x := Find(kept, target).value;
      LastStarts(short.raw, HEADER_SIZE, signature);
    }
  }

  /** No attribute starts behind one that ends the message. */
  lemma {:induction false} LastStarts(raw: bytes, position: nat, last: Attribute)
    requires Walks(raw, position) && last in AttributesAt(raw, position)
    requires last.headerStart + 24 == |raw| && |last.value| == 20
    ensures forall x :: x in AttributesAt(raw, position) ==> x.headerStart <= last.headerStart
    decreases |raw| - position
  {
    var next := NextPosition(raw, position);
    AttributesWithin(raw, next);
    assert Padded(20) == 20;
    if last in AttributesAt(raw, next) {
      LastStarts(raw, next, last);
    } else {
      assert last == AttributeAt(raw, position);
      assert next == |raw|;
    }
  }

  lemma CutHashes(message: Message, signature: Attribute)
    requires HEADER_SIZE <= signature.headerStart && signature.headerStart + 24 <= |message.raw|
    requires signature.headerStart + 24 - HEADER_SIZE <= MAX_LENGTH
    ensures var cut, start := Cut(message, signature), signature.headerStart;
            && cut[..2] == message.raw[..2] && cut[4..start] == message.raw[4..start]
  {
    CutBytes(message, signature);
    hide Cut;
  }

  /** Fields behind a correct signature change nothing for it, whatever they are: the message verifies. */
  lemma UnsignedFieldsPass(crypto: StunCrypto, kind: u16, transaction: Octets12, fields: seq<Field>,
                           key: Octets16, extra: seq<Field>)
    requires 0 < kind < 0x4000 && Unsigned(fields) == |fields|
    requires |EncodeFields(fields)| + 24 + |EncodeFields(extra)| <= MAX_LENGTH
    ensures var all := fields + [IntegrityField(crypto, key, Covered(kind, transaction, fields))] + extra;
            && |EncodeFields(all)| <= MAX_LENGTH
            && var raw := Header(kind, |EncodeFields(all)|, transaction) + EncodeFields(all);
               && Decode(raw) == Ok(Message(raw, kind, transaction))
               && VerifyIntegrity(crypto, Message(raw, kind, transaction), Some(key))
  {
    var signature := IntegrityField(crypto, key, Covered(kind, transaction, fields));
    hide Header;
    hide EncodeField;
    hide Covered;
    var all := fields + [signature] + extra;
    SplitFields(all, |fields| + 1);
    assert all[..|fields| + 1] == fields + [signature] && all[|fields| + 1..] == extra;
    EncodeFieldsAppend(fields, signature);
    hide EncodeFields;
    assert all[..|fields|] == fields && all[|fields|] == signature;
    FirstOfAll(fields, signature, extra);
    VerifiesExactly(crypto, kind, transaction, all, key);
    hide Decode;
    hide VerifyIntegrity;
  }

  lemma {:induction false} FirstOfAll(fields: seq<Field>, signature: Field, extra: seq<Field>)
    requires Unsigned(fields) == |fields| && signature.kind == ATTR_MESSAGE_INTEGRITY
    ensures Unsigned(fields + [signature] + extra) == |fields|
  {
    var all := fields + [signature] + extra;
    assert forall i :: 0 <= i < |fields| ==> all[i] == fields[i];
    assert all[|fields|] == signature;
  }

  /** And they are used: of a kind the signed fields do not hold, the client finds the field behind the
      signature in a message that verifies. */
  lemma UnsignedFieldIsUsed(crypto: StunCrypto, kind: u16, transaction: Octets12, fields: seq<Field>,
                            key: Octets16, f: Field)
    requires 0 < kind < 0x4000 && Unsigned(fields) == |fields|
    requires |EncodeFields(fields)| + 24 + |EncodeField(f)| <= MAX_LENGTH
    requires Alias(f.kind) == f.kind != ATTR_MESSAGE_INTEGRITY
    requires forall g :: g in fields ==> Alias(g.kind) != f.kind
    ensures var all := fields + [IntegrityField(crypto, key, Covered(kind, transaction, fields))] + [f];
            && |EncodeFields(all)| <= MAX_LENGTH
            && var raw := Header(kind, |EncodeFields(all)|, transaction) + EncodeFields(all);
               var message := Message(raw, kind, transaction);
               && Decode(raw) == Ok(message)
               && VerifyIntegrity(crypto, message, Some(key))
               && message.Attribute(f.kind).Some? && message.Attribute(f.kind).value.value == f.value
  {
    hide Header;
    hide EncodeField;
    hide Covered;
    hide Decode;
    hide VerifyIntegrity;
    var signature := IntegrityField(crypto, key, Covered(kind, transaction, fields));
    assert EncodeFields([f]) == EncodeField(f);
    UnsignedFieldsPass(crypto, kind, transaction, fields, key, [f]);
    hide EncodeFields;
    hide Placed;
    hide Find;
    DecodeFields(kind, transaction, fields + [signature] + [f]);
    FindClosing(fields + [signature], f);
  }
}
