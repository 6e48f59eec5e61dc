/** Building STUN messages: attributes with padding, MESSAGE-INTEGRITY (RFC 8489, section 14.5),
    FINGERPRINT (section 14.7), and the theorem that decoding inverts building. */
module StunBuilder {
  import opened Bytes
  import opened Addresses
  import opened StunMessages

  const ATTR_MESSAGE_INTEGRITY: u16 := 0x0008
  const MAX_LENGTH: nat := 0xffff

  datatype Field = Field(kind: u16, value: bytes)

  // ---------------------------------------------------------------- what the builder writes

  function Header(kind: u16, length: u16, transaction: Octets12): (h: bytes)
    ensures |h| == HEADER_SIZE
  {
    Be16(kind) + Be16(length) + COOKIE_BYTES + transaction
  }

  function Alignment(length: nat): (padding: nat)
    ensures padding < 4 && (length + padding) % 4 == 0
  {
    (4 - length % 4) % 4
  }

  /** One attribute. The length field is truncated to 16 bits, as a cast does. */
  function EncodeField(field: Field): (e: bytes)
    ensures |e| == 4 + |field.value| + Alignment(|field.value|) && |e| % 4 == 0
  {
    Be16(field.kind) + Be16(|field.value| % 0x1_0000) + field.value + Zeros(Alignment(|field.value|))
  }

  function EncodeFields(fields: seq<Field>): bytes {
    if fields == [] then [] else EncodeField(fields[0]) + EncodeFields(fields[1..])
  }

  /** Writes the length field for a message that will grow by `trailing` bytes. */
  function SetLength(b: bytes, trailing: nat): (r: Result<bytes>)
    requires HEADER_SIZE <= |b|
    ensures r.Ok? ==> |r.value| == |b|
  {
    if |b| - HEADER_SIZE + trailing > MAX_LENGTH then Err
    else Ok(b[..2] + Be16(|b| - HEADER_SIZE + trailing) + b[4..])
  }

  function FingerprintField(crypto: StunCrypto, covered: bytes): Field {
    Field(ATTR_FINGERPRINT, Be32(Xor32(crypto.crc32(covered), FINGERPRINT_XOR)))
  }

  function IntegrityField(crypto: StunCrypto, key: Octets16, covered: bytes): Field {
    Field(ATTR_MESSAGE_INTEGRITY, crypto.hmacSha1(key, covered))
  }

  function Finish(crypto: StunCrypto, b: bytes): Result<bytes>
    requires HEADER_SIZE <= |b|
  {
    match SetLength(b, 8)
    case Err => Err
    case Ok(sized) => Ok(sized + EncodeField(FingerprintField(crypto, sized)))
  }

  function FinishAuthenticated(crypto: StunCrypto, b: bytes, key: Octets16): Result<bytes>
    requires HEADER_SIZE <= |b|
  {
    match SetLength(b, 24)
    case Err => Err
    case Ok(sized) => Finish(crypto, sized + EncodeField(IntegrityField(crypto, key, sized)))
  }

  /** A whole message: header, fields, then the fingerprint; signed first when a key is given. */
  function Build(crypto: StunCrypto, kind: u16, transaction: Octets12, fields: seq<Field>,
                 key: Option<Octets16>): Result<bytes>
  {
    var b := Header(kind, 0, transaction) + EncodeFields(fields);
    match key
    case None => Finish(crypto, b)
    case Some(k) => FinishAuthenticated(crypto, b, k)
  }

  // ---------------------------------------------------------------- integrity check

  function VerifyIntegrity(crypto: StunCrypto, message: Message, key: Option<Octets16>): bool
    requires message.Valid()
  {
    match (key, message.Attribute(ATTR_MESSAGE_INTEGRITY))
    case (Some(k), Some(integrity)) =>
      AttributesWithin(message.raw, HEADER_SIZE);
      var start := integrity.headerStart;
      |integrity.value| == 20
      && start + 24 - HEADER_SIZE <= MAX_LENGTH
      && crypto.hmacSha1(k, message.raw[..2] + Be16(start + 24 - HEADER_SIZE)
                            + message.raw[4..start]) == integrity.value
    case _ => false
  }

  // ---------------------------------------------------------------- the builder

  lemma AlignmentShift(before: nat, length: nat)
    requires before % 4 == 0
    ensures Alignment(before + 2 + 2 + length) == Alignment(length)
  {
    var quarters, q, r := before / 4, length / 4, length % 4;
    Quotient(before + 4 + length, 4, quarters + 1 + q, r);
    hide *;
  }

  lemma AppendedField(b: bytes, field: Field)
    ensures b + Be16(field.kind) + Be16(|field.value| % 0x1_0000) + field.value
            + Zeros(Alignment(|field.value|))
            == b + EncodeField(field)
  {
    hide Be16;
    hide Alignment;
  }

  lemma StillLaidOut(header: bytes, fields: seq<Field>, field: Field)
    requires |EncodeFields(fields)| % 4 == 0
    ensures header + EncodeFields(fields) + EncodeField(field)
            == header + EncodeFields(fields + [field])
    ensures |EncodeFields(fields + [field])| % 4 == 0
  {
    EncodeFieldsAppend(fields, field);
    hide EncodeFields;
    hide EncodeField;
    Associative(header, EncodeFields(fields), EncodeField(field));
  }

  class MessageBuilder {
    var buffer: bytes
    const transaction: Octets12
    const crypto: StunCrypto

    ghost const kind: u16
    ghost var length: u16
    ghost var fields: seq<Field>

    ghost predicate Valid()
      reads this
    {
      && buffer == Header(kind, length, transaction) + EncodeFields(fields)
      && |EncodeFields(fields)| % 4 == 0
    }

    constructor (crypto: StunCrypto, kind: u16, transaction: Octets12)
      ensures Valid() && fields == [] && length == 0
      ensures this.kind == kind && this.transaction == transaction && this.crypto == crypto
    {
      this.buffer := Header(kind, 0, transaction);
      this.transaction := transaction;
      this.crypto := crypto;
      this.kind, this.length, this.fields := kind, 0, [];
    }

    method Pad()
      modifies this`buffer
      ensures buffer == old(buffer) + Zeros(Alignment(|old(buffer)|))
    {
      ghost var padded := 0;
      while |buffer| % 4 != 0
        invariant 0 <= padded <= Alignment(|old(buffer)|)
        invariant buffer == old(buffer) + Zeros(padded)
        decreases Alignment(|old(buffer)|) - padded
      {
        assert Zeros(padded + 1) == Zeros(padded) + [0];
        buffer := buffer + [0];
        padded := padded + 1;
      }
    }

    /** Padding is decided by the length of the whole buffer; it stays aligned, so the bytes added
        are exactly the encoding of the field. */
    method AddAttribute(kind: u16, value: bytes)
      requires Valid()
      modifies this`buffer, this`fields
      ensures Valid() && fields == old(fields) + [Field(kind, value)]
      ensures buffer == old(buffer) + EncodeField(Field(kind, value))
    {
      hide Header;
      hide EncodeFields;
      hide Be16;
      buffer := buffer + Be16(kind);
      buffer := buffer + Be16(|value| % 0x1_0000);
      buffer := buffer + value;
      AlignmentShift(|old(buffer)|, |value|);
      Pad();
      AppendedField(old(buffer), Field(kind, value));
      fields := fields + [Field(kind, value)];
      StillLaidOut(Header(this.kind, length, transaction), old(fields), Field(kind, value));
    }

    method AddXorAddress(kind: u16, address: SocketAddr)
      requires Valid()
      modifies this`buffer, this`fields
      ensures Valid()
      ensures fields == old(fields) + [Field(kind, EncodeXorAddress(address, transaction))]
    {
      AddAttribute(kind, EncodeXorAddress(address, transaction));
    }

    method FinishPlain() returns (r: Result<bytes>)
      requires Valid()
      modifies this
      ensures r == Finish(crypto, old(buffer))
    {
      hide Header;
      hide EncodeFields;
      hide EncodeField;
      ghost var body := EncodeFields(fields);
      var sized := SetLength(buffer, 8);
      if sized.Err? {
        return Err;
      }
      SetLengthOfHeader(kind, length, transaction, body, 8);
      buffer, length := sized.value, |body| + 8;
      AddAttribute(ATTR_FINGERPRINT, Be32(Xor32(crypto.crc32(buffer), FINGERPRINT_XOR)));
      r := Ok(buffer);
    }

    method FinishSigned(key: Octets16) returns (r: Result<bytes>)
      requires Valid()
      modifies this
      ensures r == FinishAuthenticated(crypto, old(buffer), key)
    {
      hide Header;
      hide EncodeFields;
      hide EncodeField;
      hide Finish;
      ghost var body := EncodeFields(fields);
      var sized := SetLength(buffer, 24);
      if sized.Err? {
        return Err;
      }
      SetLengthOfHeader(kind, length, transaction, body, 24);
      buffer, length := sized.value, |body| + 24;
      AddAttribute(ATTR_MESSAGE_INTEGRITY, crypto.hmacSha1(key, buffer));
      r := FinishPlain();
    }
  }

  // ---------------------------------------------------------------- laying out fields

  lemma {:induction false} EncodeFieldsAppend(fields: seq<Field>, last: Field)
    ensures EncodeFields(fields + [last]) == EncodeFields(fields) + EncodeField(last)
  {
    if fields == [] {
      assert [last][1..] == [];
    } else {
      assert (fields + [last])[1..] == fields[1..] + [last];
      EncodeFieldsAppend(fields[1..], last);
    }
  }

  lemma {:induction false} FieldsAligned(fields: seq<Field>)
    ensures |EncodeFields(fields)| % 4 == 0
  {
    hide EncodeField;
    if fields != [] {
      FieldsAligned(fields[1..]);
      Mod4Sum(|EncodeField(fields[0])|, |EncodeFields(fields[1..])|);
    }
  }

  lemma Mod4Sum(a: nat, b: nat)
    requires a % 4 == 0 && b % 4 == 0
    ensures (a + b) % 4 == 0
  {
  }

  lemma {:induction false} FieldFits(fields: seq<Field>, f: Field)
    requires f in fields
    ensures |f.value| + 4 <= |EncodeFields(fields)|
  {
    hide EncodeField;
    if f != fields[0] {
      FieldFits(fields[1..], f);
    }
  }

  lemma Associative(a: bytes, b: bytes, c: bytes)
    ensures a + b + c == a + (b + c)
  {
  }

  /** The attributes the iterator must report for fields laid out from `position`. */
  function Placed(position: nat, fields: seq<Field>): seq<Attribute>
    decreases |fields|
  {
    if fields == [] then []
    else [Attribute(Alias(fields[0].kind), fields[0].value, position)]
         + Placed(position + |EncodeField(fields[0])|, fields[1..])
  }

  /** The position of a field is the number of bytes before it. */
  lemma {:induction false} PlacedAppend(position: nat, fields: seq<Field>, last: Field)
    ensures Placed(position, fields + [last])
            == Placed(position, fields)
               + [Attribute(Alias(last.kind), last.value, position + |EncodeFields(fields)|)]
    decreases |fields|
  {
    var all := fields + [last];
    if fields == [] {
      assert all[1..] == [];
      assert Placed(position + |EncodeField(last)|, all[1..]) == [];
    } else {
      var next := position + |EncodeField(fields[0])|;
      assert all[1..] == fields[1..] + [last];
      PlacedAppend(next, fields[1..], last);
      assert next + |EncodeFields(fields[1..])| == position + |EncodeFields(fields)|;
    }
  }

  lemma {:induction false} PlacedKinds(position: nat, fields: seq<Field>, target: u16)
    requires forall f :: f in fields ==> Alias(f.kind) != target
    ensures forall a :: a in Placed(position, fields) ==> a.kind != target
    decreases |fields|
  {
    if fields != [] {
      PlacedKinds(position + |EncodeField(fields[0])|, fields[1..], target);
    }
  }

  lemma {:induction false} FindLast(attributes: seq<Attribute>, last: Attribute)
    requires forall a :: a in attributes ==> a.kind != last.kind
    ensures Find(attributes + [last], last.kind) == Some(last)
  {
    if attributes != [] {
      assert (attributes + [last])[1..] == attributes[1..] + [last];
      FindLast(attributes[1..], last);
    }
  }

  lemma {:induction false} FindInPrefix(attributes: seq<Attribute>, more: seq<Attribute>, a: Attribute)
    requires a in attributes
    ensures Find(attributes + more, a.kind) == Find(attributes, a.kind)
  {
    if attributes[0].kind != a.kind {
      assert (attributes + more)[1..] == attributes[1..] + more;
      FindInPrefix(attributes[1..], more, a);
    }
  }

  lemma {:induction false} PlacedHas(position: nat, fields: seq<Field>, f: Field) returns (a: Attribute)
    requires f in fields
    ensures a in Placed(position, fields) && a.kind == Alias(f.kind)
    decreases |fields|
  {
    if fields[0] == f {
      a := Placed(position, fields)[0];
    } else {
      a := PlacedHas(position + |EncodeField(fields[0])|, fields[1..], f);
    }
  }

  lemma {:induction false} PlacedWithin(position: nat, fields: seq<Field>)
    ensures forall a :: a in Placed(position, fields) ==>
              a.headerStart < position + |EncodeFields(fields)|
    decreases |fields|
  {
    if fields != [] {
      PlacedWithin(position + |EncodeField(fields[0])|, fields[1..]);
      hide EncodeField;
    }
  }

  // ---------------------------------------------------------------- the walk reads them back

  /** One field after `prefix` is read back, whatever follows it. */
  lemma ReadField(prefix: bytes, field: Field, rest: bytes)
    requires |field.value| < 0x1_0000
    ensures var raw, position := prefix + (EncodeField(field) + rest), |prefix|;
            && LengthAt(raw, position) == |field.value|
            && position + 4 + Padded(|field.value|) == position + |EncodeField(field)|
            && FromBe16(raw[position..position + 2]) == field.kind
            && raw[position + 4..position + 4 + |field.value|] == field.value
  {
    FieldSlices(prefix, Be16(field.kind), Be16(|field.value|), field.value,
                Zeros(Alignment(|field.value|)), rest);
    AlignmentIsPadding(|field.value|);
    hide Be16;
    hide FromBe16;
    hide Alignment;
    hide Padded;
  }

  lemma FieldSlices(prefix: bytes, kind: bytes, size: bytes, value: bytes, zeros: bytes, rest: bytes)
    requires |kind| == |size| == 2
    ensures var raw, p := prefix + (kind + size + value + zeros + rest), |prefix|;
            && raw[p..p + 2] == kind
            && raw[p + 2..p + 4] == size
            && raw[p + 4..p + 4 + |value|] == value
  {
    Regroup(prefix, kind, size, value + zeros + rest);
    SliceAt(prefix, kind, size + (value + zeros + rest));
    SliceAt(prefix + kind, size, value + zeros + rest);
    Regroup(prefix + kind + size, value, zeros, rest);
    SliceAt(prefix + kind + size, value, zeros + rest);
    assert kind + size + value + zeros + rest == kind + size + (value + zeros + rest);
  }

  /** Pieces in a row, seen from the first, the second or the third of them. */
  lemma Regroup(a: bytes, b: bytes, c: bytes, d: bytes)
    ensures a + (b + c + d) == a + b + (c + d) == a + b + c + d
  {
  }

  lemma SliceAt(before: bytes, x: bytes, after: bytes)
    ensures (before + x + after)[|before|..|before| + |x|] == x
  {
  }

  lemma AlignmentIsPadding(length: nat)
    ensures Padded(length) == length + Alignment(length)
  {
  }

  /** The walk over a run of encoded fields that ends the message reports exactly those fields. */
  lemma {:induction false} WalkFields(prefix: bytes, fields: seq<Field>)
    requires forall f :: f in fields ==> |f.value| < 0x1_0000
    ensures Walks(prefix + EncodeFields(fields), |prefix|)
    ensures AttributesAt(prefix + EncodeFields(fields), |prefix|) == Placed(|prefix|, fields)
    decreases |fields|
  {
    hide EncodeField;
    hide LengthAt;
    hide FromBe16;
    hide Padded;
    hide Alias;
    var raw := prefix + EncodeFields(fields);
    if fields != [] {
      var e, rest := EncodeField(fields[0]), EncodeFields(fields[1..]);
      assert raw == (prefix + e) + rest;
      WalkFields(prefix + e, fields[1..]);
      ReadField(prefix, fields[0], rest);
    }
  }

  /** A header with the right length field, followed by encoded fields, decodes to them. */
  lemma DecodeFields(kind: u16, transaction: Octets12, fields: seq<Field>)
    requires 0 < kind < 0x4000
    requires |EncodeFields(fields)| <= MAX_LENGTH
    ensures var raw := Header(kind, |EncodeFields(fields)|, transaction) + EncodeFields(fields);
            && Decode(raw) == Ok(Message(raw, kind, transaction))
            && Message(raw, kind, transaction).Attributes() == Placed(HEADER_SIZE, fields)
  {
    hide EncodeFields;
    hide Walks;
    hide AttributesAt;
    hide Placed;
    var header := Header(kind, |EncodeFields(fields)|, transaction);
    var raw := header + EncodeFields(fields);
    FieldsAligned(fields);
    forall f | f in fields ensures |f.value| < 0x1_0000 {
      FieldFits(fields, f);
    }
    WalkFields(header, fields);
    assert raw[0..2] == Be16(kind);
    assert raw[2..4] == Be16(|EncodeFields(fields)|);
    assert raw[4..8] == COOKIE_BYTES;
    assert raw[8..20] == transaction;
  }

  lemma SetLengthOfHeader(kind: u16, old_: u16, transaction: Octets12, body: bytes, trailing: nat)
    requires |body| + trailing <= MAX_LENGTH
    ensures SetLength(Header(kind, old_, transaction) + body, trailing)
            == Ok(Header(kind, |body| + trailing, transaction) + body)
  {
    var head, rest := Be16(kind), COOKIE_BYTES + transaction;
    var b := Header(kind, old_, transaction) + body;
    assert b[..2] == head;
    assert b[4..] == rest + body;
    assert head + Be16(|body| + trailing) + (rest + body)
           == Header(kind, |body| + trailing, transaction) + body;
  }

  // ---------------------------------------------------------------- what a built message is

  /** The bytes of an unsigned message, with the length field already final when the checksum was
      taken. */
  lemma FinishBytes(crypto: StunCrypto, kind: u16, old_: u16, transaction: Octets12, fields: seq<Field>)
    requires |EncodeFields(fields)| + 8 <= MAX_LENGTH
    ensures var covered := Header(kind, |EncodeFields(fields)| + 8, transaction) + EncodeFields(fields);
            var all := fields + [FingerprintField(crypto, covered)];
            && |EncodeFields(all)| == |EncodeFields(fields)| + 8
            && Finish(crypto, Header(kind, old_, transaction) + EncodeFields(fields))
               == Ok(Header(kind, |EncodeFields(all)|, transaction) + EncodeFields(all))
  {
    hide Header;
    hide SetLength;
    hide EncodeField;
    var body := EncodeFields(fields);
    var covered := Header(kind, |body| + 8, transaction) + body;
    var last := FingerprintField(crypto, covered);
    SetLengthOfHeader(kind, old_, transaction, body, 8);
    EncodeFieldsAppend(fields, last);
    Associative(Header(kind, |body| + 8, transaction), body, EncodeField(last));
  }

  /** The fields of the finished message: those given, the signature when there is a key, and the
      fingerprint. */
  function AllFields(crypto: StunCrypto, kind: u16, transaction: Octets12, fields: seq<Field>,
                     key: Option<Octets16>): seq<Field>
  {
    var size := |EncodeFields(fields)|;
    match key
    case None =>
      if size + 8 > MAX_LENGTH then [] else
        fields + [FingerprintField(crypto, Header(kind, size + 8, transaction) + EncodeFields(fields))]
    case Some(k) =>
      if size + 32 > MAX_LENGTH then [] else
        var signed := fields + [IntegrityField(crypto, k, Header(kind, size + 24, transaction)
                                                          + EncodeFields(fields))];
        signed + [FingerprintField(crypto, Header(kind, size + 32, transaction) + EncodeFields(signed))]
  }

  function Overhead(key: Option<Octets16>): nat {
    if key.Some? then 32 else 8
  }

  lemma TooLong(crypto: StunCrypto, kind: u16, transaction: Octets12, fields: seq<Field>,
                key: Option<Octets16>)
    requires |EncodeFields(fields)| + Overhead(key) > MAX_LENGTH
    ensures Build(crypto, kind, transaction, fields, key) == Err
  {
    hide EncodeField;
    hide EncodeFields;
  }

  /** Building succeeds exactly when the whole message fits its 16-bit length field. */
  lemma BuildBytes(crypto: StunCrypto, kind: u16, transaction: Octets12, fields: seq<Field>,
                   key: Option<Octets16>)
    ensures Build(crypto, kind, transaction, fields, key).Ok?
            <==> |EncodeFields(fields)| + Overhead(key) <= MAX_LENGTH
    ensures var all := AllFields(crypto, kind, transaction, fields, key);
            Build(crypto, kind, transaction, fields, key).Ok? ==>
              && |EncodeFields(all)| == |EncodeFields(fields)| + Overhead(key)
              && Build(crypto, kind, transaction, fields, key)
                 == Ok(Header(kind, |EncodeFields(all)|, transaction) + EncodeFields(all))
  {
    hide Header;
    hide EncodeField;
    hide EncodeFields;
    hide SetLength;
    hide Finish;
    var body := EncodeFields(fields);
    if |body| + Overhead(key) > MAX_LENGTH {
      TooLong(crypto, kind, transaction, fields, key);
    } else {
      match key
      case None => FinishBytes(crypto, kind, 0, transaction, fields);
      case Some(k) =>
        SetLengthOfHeader(kind, 0, transaction, body, 24);
        var sized := Header(kind, |body| + 24, transaction) + body;
        var signature := IntegrityField(crypto, k, sized);
        EncodeFieldsAppend(fields, signature);
        Associative(Header(kind, |body| + 24, transaction), body, EncodeField(signature));
        FinishBytes(crypto, kind, |body| + 24, transaction, fields + [signature]);
    }
  }

  // ---------------------------------------------------------------- the round trip

  /** Decoding inverts building: same type, same transaction, same attributes without padding, in
      order, at the positions where they were written. Kinds come back through the alias. */
  lemma DecodeBuild(crypto: StunCrypto, kind: u16, transaction: Octets12, fields: seq<Field>,
                    key: Option<Octets16>)
    requires 0 < kind < 0x4000
    ensures var built := Build(crypto, kind, transaction, fields, key);
            built.Ok? ==>
              var message := Message(built.value, kind, transaction);
              && Decode(built.value) == Ok(message)
              && message.Attributes()
                 == Placed(HEADER_SIZE, AllFields(crypto, kind, transaction, fields, key))
  {
    BuildBytes(crypto, kind, transaction, fields, key);
    var all := AllFields(crypto, kind, transaction, fields, key);
    if Build(crypto, kind, transaction, fields, key).Ok? {
      DecodeFields(kind, transaction, all);
    }
  }

  /** What the lookup of the closing field finds: that field when no earlier one has its kind, an
      earlier one otherwise. */
  lemma FindClosing(fields: seq<Field>, last: Field)
    requires Alias(last.kind) == last.kind
    ensures var found := Find(Placed(HEADER_SIZE, fields + [last]), last.kind);
            && found.Some?
            && if forall f :: f in fields ==> Alias(f.kind) != last.kind
               then found.value == Attribute(last.kind, last.value, HEADER_SIZE + |EncodeFields(fields)|)
               else found.value.headerStart < HEADER_SIZE + |EncodeFields(fields)|
  {
    hide EncodeField;
    hide EncodeFields;
    hide Alias;
    hide Placed;
    hide Find;
    PlacedAppend(HEADER_SIZE, fields, last);
    var mark := Attribute(last.kind, last.value, HEADER_SIZE + |EncodeFields(fields)|);
    if forall f :: f in fields ==> Alias(f.kind) != last.kind {
      PlacedKinds(HEADER_SIZE, fields, last.kind);
      FindLast(Placed(HEADER_SIZE, fields), mark);
    } else {
      var f :| f in fields && Alias(f.kind) == last.kind;
      var a := PlacedHas(HEADER_SIZE, fields, f);
      FindInPrefix(Placed(HEADER_SIZE, fields), [mark], a);
      PlacedWithin(HEADER_SIZE, fields);
    }
  }

  /** A built message is the covered bytes and the 8-byte fingerprint over them. */
  lemma SealedForm(crypto: StunCrypto, kind: u16, transaction: Octets12, fields: seq<Field>,
                   key: Option<Octets16>)
      returns (earlier: seq<Field>, covered: bytes)
    requires Build(crypto, kind, transaction, fields, key).Ok?
    ensures AllFields(crypto, kind, transaction, fields, key)
            == earlier + [FingerprintField(crypto, covered)]
    ensures Build(crypto, kind, transaction, fields, key).value
            == covered + EncodeField(FingerprintField(crypto, covered))
    ensures |covered| == HEADER_SIZE + |EncodeFields(earlier)|
    ensures |EncodeField(FingerprintField(crypto, covered))| == 8
    ensures earlier == fields
            || exists value :: earlier == fields + [Field(ATTR_MESSAGE_INTEGRITY, value)]
  {
    hide Build;
    hide Header;
    hide EncodeFields;
    BuildBytes(crypto, kind, transaction, fields, key);
    var all := AllFields(crypto, kind, transaction, fields, key);
    earlier := all[..|all| - 1];
    covered := Header(kind, |EncodeFields(fields)| + Overhead(key), transaction) + EncodeFields(earlier);
    var last := FingerprintField(crypto, covered);
    if key.None? {
      assert earlier == fields;
    } else {
      var sized := Header(kind, |EncodeFields(fields)| + 24, transaction) + EncodeFields(fields);
      assert earlier == fields + [IntegrityField(crypto, key.value, sized)];
    }
    assert all == earlier + [last];
    EncodeFieldsAppend(earlier, last);
    var head := Header(kind, |EncodeFields(fields)| + Overhead(key), transaction);
    Associative(head, EncodeFields(earlier), EncodeField(last));
  }

  /** The fingerprint of a built message is valid exactly when no earlier attribute is itself a
      fingerprint: the check reads the first one and demands that it is last. */
  lemma FingerprintOfBuild(crypto: StunCrypto, kind: u16, transaction: Octets12, fields: seq<Field>,
                           key: Option<Octets16>)
    requires 0 < kind < 0x4000
    requires Build(crypto, kind, transaction, fields, key).Ok?
    ensures var message := Decode(Build(crypto, kind, transaction, fields, key).value);
            && message.Ok?
            && message.value.FingerprintValid(crypto)
               == Some(forall f :: f in fields ==> f.kind != ATTR_FINGERPRINT)
  {
    hide Build;
    hide Decode;
    hide AllFields;
    hide EncodeField;
    hide EncodeFields;
    hide Placed;
    hide Find;
    DecodeBuild(crypto, kind, transaction, fields, key);
    var earlier, covered := SealedForm(crypto, kind, transaction, fields, key);
    var last := FingerprintField(crypto, covered);
    FindClosing(earlier, last);
    var raw := Build(crypto, kind, transaction, fields, key).value;
    assert raw[..|covered|] == covered;
    assert (forall f :: f in fields ==> f.kind != ATTR_FINGERPRINT)
           <==> (forall f :: f in earlier ==> Alias(f.kind) != ATTR_FINGERPRINT) by {
      assert forall f :: f in fields ==> f in earlier;
      assert forall f :: f in earlier ==> f in fields || f.kind == ATTR_MESSAGE_INTEGRITY;
    }
  }

  /** The fields up to the first that claims to be the signature, if there is one. */
  function Unsigned(fields: seq<Field>): (n: nat)
    ensures n <= |fields|
    ensures n < |fields| ==> fields[n].kind == ATTR_MESSAGE_INTEGRITY
    ensures forall i :: 0 <= i < n ==> fields[i].kind != ATTR_MESSAGE_INTEGRITY
  {
    if fields == [] || fields[0].kind == ATTR_MESSAGE_INTEGRITY then 0 else 1 + Unsigned(fields[1..])
  }

  /** What verification recomputes of the fields before a signature. */
  function Covered(kind: u16, transaction: Octets12, fields: seq<Field>): bytes
    requires |EncodeFields(fields)| + 24 <= MAX_LENGTH
  {
    Header(kind, |EncodeFields(fields)| + 24, transaction) + EncodeFields(fields)
  }

  /** When a message of these fields verifies: its first attribute that claims to be the signature is
      one, of 20 bytes, and the hash of all that lies before it. */
  predicate Signs(crypto: StunCrypto, kind: u16, transaction: Octets12, fields: seq<Field>, key: Octets16) {
    var n := Unsigned(fields);
    && n < |fields| && |fields[n].value| == 20
    && |EncodeFields(fields[..n])| + 24 <= MAX_LENGTH
    && crypto.hmacSha1(key, Covered(kind, transaction, fields[..n])) == fields[n].value
  }

  /** A laid-out message verifies exactly then. */
  lemma VerifiesExactly(crypto: StunCrypto, kind: u16, transaction: Octets12, fields: seq<Field>,
                        key: Octets16)
    requires 0 < kind < 0x4000 && |EncodeFields(fields)| <= MAX_LENGTH
    ensures var raw := Header(kind, |EncodeFields(fields)|, transaction) + EncodeFields(fields);
            && Decode(raw) == Ok(Message(raw, kind, transaction))
            && (VerifyIntegrity(crypto, Message(raw, kind, transaction), Some(key))
                <==> Signs(crypto, kind, transaction, fields, key))
  {
    hide Header;
    hide EncodeFields;
    hide Decode;
    DecodeFields(kind, transaction, fields);
    var raw := Header(kind, |EncodeFields(fields)|, transaction) + EncodeFields(fields);
    if Unsigned(fields) == |fields| {
      assert forall f :: f in fields ==> Alias(f.kind) != ATTR_MESSAGE_INTEGRITY;
      PlacedKinds(HEADER_SIZE, fields, ATTR_MESSAGE_INTEGRITY);
      hide Placed;
      hide Find;
    } else {
      hide VerifyIntegrity;
      hide Placed;
      FirstSignature(fields, Unsigned(fields));
      VerifiesAt(crypto, Message(raw, kind, transaction), fields, key);
    }
  }

  lemma VerifiesAt(crypto: StunCrypto, message: Message, fields: seq<Field>, key: Octets16)
    requires message.Valid() && Unsigned(fields) < |fields| && |EncodeFields(fields)| <= MAX_LENGTH
    requires message.raw
             == Header(message.kind, |EncodeFields(fields)|, message.transaction) + EncodeFields(fields)
    requires var n := Unsigned(fields);
             message.Attribute(ATTR_MESSAGE_INTEGRITY)
             == Some(Attribute(ATTR_MESSAGE_INTEGRITY, fields[n].value,
                               HEADER_SIZE + |EncodeFields(fields[..n])|))
    ensures VerifyIntegrity(crypto, message, Some(key))
            <==> Signs(crypto, message.kind, message.transaction, fields, key)
  {
    var n := Unsigned(fields);
    SplitFields(fields, n);
    if |fields[n].value| == 20 {
      HeadFits(fields[n..]);
      SignedPrefix(message.kind, message.transaction, |EncodeFields(fields)|, EncodeFields(fields[..n]),
                   EncodeFields(fields[n..]));
    }
    hide Header;
    hide EncodeFields;
    hide Unsigned;
  }

  lemma HeadFits(fields: seq<Field>)
    requires fields != [] && |fields[0].value| == 20
    ensures |EncodeFields(fields)| >= 24
  {
  }

  lemma {:induction false} SplitFields(fields: seq<Field>, n: nat)
    requires n <= |fields|
    ensures EncodeFields(fields) == EncodeFields(fields[..n]) + EncodeFields(fields[n..])
  {
    hide EncodeField;
    if n == 0 {
      assert fields[..0] == [] && fields[0..] == fields;
    } else {
      assert fields[..n][1..] == fields[1..][..n - 1] && fields[1..][n - 1..] == fields[n..];
      SplitFields(fields[1..], n - 1);
      assert fields[..n][0] == fields[0];
    }
  }

  lemma FirstSignature(fields: seq<Field>, n: nat)
    requires n < |fields| && fields[n].kind == ATTR_MESSAGE_INTEGRITY
    requires forall i :: 0 <= i < n ==> fields[i].kind != ATTR_MESSAGE_INTEGRITY
    ensures Find(Placed(HEADER_SIZE, fields), ATTR_MESSAGE_INTEGRITY)
            == Some(Attribute(ATTR_MESSAGE_INTEGRITY, fields[n].value, HEADER_SIZE + |EncodeFields(fields[..n])|))
  {
    hide EncodeField;
    hide EncodeFields;
    hide Placed;
    hide Find;
    var before, signature, rest := fields[..n], fields[n], fields[n + 1..];
    assert forall f :: f in before ==> Alias(f.kind) != signature.kind;
    FindClosing(before, signature);
    var upTo := before + [signature];
    assert fields == upTo + rest;
    PlacedSplit(HEADER_SIZE, upTo, rest);
    FindInPrefix(Placed(HEADER_SIZE, upTo), Placed(HEADER_SIZE + |EncodeFields(upTo)|, rest),
                 Find(Placed(HEADER_SIZE, upTo), signature.kind).value);
  }

  lemma {:induction false} PlacedSplit(position: nat, a: seq<Field>, b: seq<Field>)
    ensures Placed(position, a + b) == Placed(position, a) + Placed(position + |EncodeFields(a)|, b)
    decreases |a|
  {
    hide EncodeField;
    if a == [] {
      assert a + b == b;
    } else {
      assert (a + b)[1..] == a[1..] + b && (a + b)[0] == a[0];
      var next := position + |EncodeField(a[0])|;
      PlacedSplit(next, a[1..], b);
      assert next + |EncodeFields(a[1..])| == position + |EncodeFields(a)|;
      hide EncodeFields;
    }
  }

  /** Rewriting the length field of a longer message gives back the signed bytes of the shorter one. */
  lemma SignedPrefix(kind: u16, transaction: Octets12, length: u16, body: bytes, tail: bytes)
    requires |body| + 24 <= MAX_LENGTH
    ensures var raw := Header(kind, length, transaction) + (body + tail);
            raw[..2] + Be16(|body| + 24) + raw[4..HEADER_SIZE + |body|]
            == Header(kind, |body| + 24, transaction) + body
  {
    var raw := Header(kind, length, transaction) + (body + tail);
    assert raw[..2] == Be16(kind);
    assert raw[4..HEADER_SIZE + |body|] == COOKIE_BYTES + transaction + body;
  }

  /** A built message verifies under its key, despite the two rewrites of its length field, exactly when
      its first attribute that claims to be the signature is one: its own, unless one was given. */
  lemma IntegrityOfBuild(crypto: StunCrypto, kind: u16, transaction: Octets12, fields: seq<Field>,
                         key: Octets16)
    requires 0 < kind < 0x4000
    requires Build(crypto, kind, transaction, fields, Some(key)).Ok?
    ensures var message := Decode(Build(crypto, kind, transaction, fields, Some(key)).value);
            && message.Ok?
            && (VerifyIntegrity(crypto, message.value, Some(key))
                <==> Unsigned(fields) == |fields| || Signs(crypto, kind, transaction, fields, key))
  {
    hide Build;
    hide Decode;
    hide VerifyIntegrity;
    hide Header;
    hide EncodeFields;
    BuildBytes(crypto, kind, transaction, fields, Some(key));
    var all := AllFields(crypto, kind, transaction, fields, Some(key));
    VerifiesExactly(crypto, kind, transaction, all, key);
    SignsAll(crypto, kind, transaction, fields, key);
  }

  lemma SignsAll(crypto: StunCrypto, kind: u16, transaction: Octets12, fields: seq<Field>, key: Octets16)
    requires |EncodeFields(fields)| + 32 <= MAX_LENGTH
    ensures Signs(crypto, kind, transaction, AllFields(crypto, kind, transaction, fields, Some(key)), key)
            <==> Unsigned(fields) == |fields| || Signs(crypto, kind, transaction, fields, key)
  {
    hide Header;
    hide EncodeFields;
    hide Covered;
    var all, n := AllFields(crypto, kind, transaction, fields, Some(key)), Unsigned(fields);
    var covered := Header(kind, |EncodeFields(fields)| + 24, transaction) + EncodeFields(fields);
    assert covered == Covered(kind, transaction, fields) by {
      CoveredIs(kind, transaction, fields);
    }
    assert all[..|fields|] == fields && all[|fields|] == IntegrityField(crypto, key, covered);
    hide AllFields;
    assert Unsigned(all) == n;
    assert all[..n] == fields[..n];
    if n == |fields| {
      assert fields[..n] == fields;
    }
  }

  lemma CoveredIs(kind: u16, transaction: Octets12, fields: seq<Field>)
    requires |EncodeFields(fields)| + 24 <= MAX_LENGTH
    ensures Covered(kind, transaction, fields)
            == Header(kind, |EncodeFields(fields)| + 24, transaction) + EncodeFields(fields)
  {
  }

  /** Whatever the hash function: a given attribute that claims to be the signature without having its
      length defeats verification. */
  lemma ShortSignatureFails(crypto: StunCrypto, kind: u16, transaction: Octets12, fields: seq<Field>,
                            key: Octets16)
    requires 0 < kind < 0x4000
    requires Build(crypto, kind, transaction, fields, Some(key)).Ok?
    requires Unsigned(fields) < |fields| && |fields[Unsigned(fields)].value| != 20
    ensures var message := Decode(Build(crypto, kind, transaction, fields, Some(key)).value);
            message.Ok? && !VerifyIntegrity(crypto, message.value, Some(key))
  {
    IntegrityOfBuild(crypto, kind, transaction, fields, key);
    hide VerifyIntegrity;
    hide Build;
    hide Decode;
  }
}
