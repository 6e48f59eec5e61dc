/** STUN message decoding (RFC 8489, sections 5, 14 and 14.7): header checks, the attribute walk,
    the class/method split of the message type, and the fingerprint check. */
module StunMessages {
  import opened Bytes
  import opened Addresses

  type Octets20 = s: bytes | |s| == 20 witness Zeros(20)

  /** The primitives the STUN layer calls. Every result in this project holds for all of them. */
  datatype StunCrypto = StunCrypto(
    md5: bytes -> Octets16,
    hmacSha1: (Octets16, bytes) -> Octets20,
    crc32: bytes -> u32)

  const HEADER_SIZE: nat := 20
  const ATTR_FINGERPRINT: u16 := 0x8028
  const FINGERPRINT_XOR: u32 := 0x5354_554e

  datatype Class = Request | Indication | Success | Error

  datatype Attribute = Attribute(kind: u16, value: bytes, headerStart: nat)

  // ---------------------------------------------------------------- message type

  function ClassOf(kind: u16): Class {
    var code := kind / 0x10 % 2 + 2 * (kind / 0x100 % 2);
    if code == 0 then Request
    else if code == 1 then Indication
    else if code == 2 then Success
    else Error
  }

  function MethodOf(kind: u16): (m: u16)
    ensures m < 0x1000
  {
    kind % 0x10 + kind / 0x20 % 8 * 0x10 + kind / 0x200 % 0x20 * 0x80
  }

  function ClassCode(class_: Class): nat {
    match class_
    case Request => 0
    case Indication => 1
    case Success => 2
    case Error => 3
  }

  /** The five bit fields of a message type, low to high: M0-3, C0, M4-6, C1, M7-11. */
  function Fields(low: nat, c0: nat, middle: nat, c1: nat, high: nat): nat {
    low + 0x10 * (c0 + 2 * (middle + 8 * (c1 + 2 * high)))
  }

  /** The layout of RFC 8489, section 5: twelve method bits with class bits C0 and C1 spliced in
      at positions 4 and 8. */
  function KindOf(method_: u16, class_: Class): u16
    requires method_ < 0x1000
  {
    Fields(method_ % 0x10, ClassCode(class_) % 2, method_ / 0x10 % 8, ClassCode(class_) / 2, method_ / 0x80)
  }

  lemma FieldsOf(low: nat, c0: nat, middle: nat, c1: nat, high: nat)
    requires low < 0x10 && c0 < 2 && middle < 8 && c1 < 2 && high < 0x20
    ensures Fields(low, c0, middle, c1, high) < 0x4000
    ensures Fields(low, c0, middle, c1, high) % 0x10 == low
    ensures Fields(low, c0, middle, c1, high) / 0x10 % 2 == c0
    ensures Fields(low, c0, middle, c1, high) / 0x20 % 8 == middle
    ensures Fields(low, c0, middle, c1, high) / 0x100 % 2 == c1
    ensures Fields(low, c0, middle, c1, high) / 0x200 % 0x20 == high
  {
    var kind := Fields(low, c0, middle, c1, high);
    var k1 := c0 + 2 * (middle + 8 * (c1 + 2 * high));
    var k2 := middle + 8 * (c1 + 2 * high);
    var k3 := c1 + 2 * high;
    Quotient(kind, 0x10, k1, low);
    Quotient(k1, 2, k2, c0);
    Quotient(kind, 0x20, k2, low + 0x10 * c0);
    Quotient(k2, 8, k3, middle);
    Quotient(kind, 0x100, k3, low + 0x10 * c0 + 0x20 * middle);
    Quotient(k3, 2, high, c1);
    Quotient(kind, 0x200, high, low + 0x10 * c0 + 0x20 * middle + 0x100 * c1);
  }

  lemma MethodFields(low: nat, middle: nat, high: nat)
    requires low < 0x10 && middle < 8 && high < 0x20
    ensures var m := low + 0x10 * middle + 0x80 * high;
            m < 0x1000 && m % 0x10 == low && m / 0x10 % 8 == middle && m / 0x80 == high
  {
    var m := low + 0x10 * middle + 0x80 * high;
    Quotient(m, 0x10, middle + 8 * high, low);
    Quotient(middle + 8 * high, 8, high, middle);
    Quotient(m, 0x80, high, low + 0x10 * middle);
  }

  /** A type is the sum of its fields. */
  lemma KindSplit(kind: nat) returns (low: nat, c0: nat, middle: nat, c1: nat, high: nat)
    requires kind < 0x4000
    ensures low < 0x10 && c0 < 2 && middle < 8 && c1 < 2 && high < 0x20
    ensures kind == Fields(low, c0, middle, c1, high)
  {
    low, c0, middle, c1, high :=
      kind % 0x10, kind / 0x10 % 2, kind / 0x10 / 2 % 8, kind / 0x10 / 2 / 8 % 2, kind / 0x10 / 2 / 8 / 2;
  }

  lemma MethodSplit(m: nat) returns (low: nat, middle: nat, high: nat)
    requires m < 0x1000
    ensures low < 0x10 && middle < 8 && high < 0x20 && m == low + 0x10 * middle + 0x80 * high
  {
    low, middle, high := m % 0x10, m / 0x10 % 8, m / 0x10 / 8;
  }

  lemma FieldsRead(low: nat, c0: nat, middle: nat, c1: nat, high: nat)
    requires low < 0x10 && c0 < 2 && middle < 8 && c1 < 2 && high < 0x20
    ensures Fields(low, c0, middle, c1, high) < 0x4000
    ensures MethodOf(Fields(low, c0, middle, c1, high)) == low + 0x10 * middle + 0x80 * high
    ensures ClassCode(ClassOf(Fields(low, c0, middle, c1, high))) == c0 + 2 * c1
  {
    FieldsOf(low, c0, middle, c1, high);
  }

  /** Splitting a 14-bit type into method and class and joining them again is the identity ... */
  lemma KindRoundTrip(kind: u16)
    requires kind < 0x4000
    ensures KindOf(MethodOf(kind), ClassOf(kind)) == kind
  {
    var low, c0, middle, c1, high := KindSplit(kind);
    FieldsRead(low, c0, middle, c1, high);
    MethodFields(low, middle, high);
    Quotient(c0 + 2 * c1, 2, c1, c0);
  }

  /** ... and so is joining and splitting: the split is a bijection. */
  lemma MethodClassRoundTrip(method_: u16, class_: Class)
    requires method_ < 0x1000
    ensures KindOf(method_, class_) < 0x4000
    ensures MethodOf(KindOf(method_, class_)) == method_
    ensures ClassOf(KindOf(method_, class_)) == class_
  {
    var low, middle, high := MethodSplit(method_);
    MethodFields(low, middle, high);
    var c0, c1 := ClassCode(class_) % 2, ClassCode(class_) / 2;
    assert KindOf(method_, class_) == Fields(low, c0, middle, c1, high);
    FieldsRead(low, c0, middle, c1, high);
    assert ClassCode(ClassOf(KindOf(method_, class_))) == ClassCode(class_);
  }

  // ---------------------------------------------------------------- attribute walk

  function Padded(length: nat): (padded: nat)
    ensures length <= padded < length + 4 && padded % 4 == 0
  {
    (length + 3) / 4 * 4
  }

  /** The kind the iterator reports: 0x8020 is an alias of 0x0020. */
  function Alias(kind: u16): u16 {
    if kind == 0x8020 then 0x0020 else kind
  }

  function LengthAt(raw: bytes, position: nat): u16
    requires position + 4 <= |raw|
  {
    FromBe16(raw[position + 2..position + 4])
  }

  /** The walk of the decoder from `position` reaches the end of the message exactly. */
  predicate Walks(raw: bytes, position: nat)
    decreases |raw| - position
  {
    position == |raw|
    || (position + 4 <= |raw|
        && position + 4 + Padded(LengthAt(raw, position)) <= |raw|
        && Walks(raw, position + 4 + Padded(LengthAt(raw, position))))
  }

  function AttributeAt(raw: bytes, position: nat): Attribute
    requires Walks(raw, position) && position < |raw|
  {
    Attribute(Alias(FromBe16(raw[position..position + 2])),
              raw[position + 4..position + 4 + LengthAt(raw, position)],
              position)
  }

  function AttributesAt(raw: bytes, position: nat): seq<Attribute>
    requires Walks(raw, position)
    decreases |raw| - position
  {
    if position == |raw| then []
    else [AttributeAt(raw, position)]
         + AttributesAt(raw, position + 4 + Padded(LengthAt(raw, position)))
  }

  function Find(attributes: seq<Attribute>, target: u16): (found: Option<Attribute>)
    ensures found.None? <==> forall a :: a in attributes ==> a.kind != target
    ensures found.Some? ==> found.value in attributes && found.value.kind == target
  {
    if attributes == [] then None
    else if attributes[0].kind == target then Some(attributes[0])
    else Find(attributes[1..], target)
  }

  // ---------------------------------------------------------------- decoding

  datatype Message = Message(raw: bytes, kind: u16, transaction: Octets12) {
    ghost predicate Valid() {
      HEADER_SIZE <= |raw| && Walks(raw, HEADER_SIZE)
    }

    function Class(): Class {
      ClassOf(kind)
    }

    function Method(): u16 {
      MethodOf(kind)
    }

    function Attributes(): seq<Attribute>
      requires Valid()
    {
      AttributesAt(raw, HEADER_SIZE)
    }

    function Attribute(target: u16): Option<Attribute>
      requires Valid()
    {
      Find(Attributes(), target)
    }

    function FingerprintValid(crypto: StunCrypto): Option<bool>
      requires Valid()
    {
      match Attribute(ATTR_FINGERPRINT)
      case None => None
      case Some(a) =>
        if |a.value| != 4 || a.headerStart + 8 != |raw| then Some(false)
        else
          AttributesWithin(raw, HEADER_SIZE);
          Some(FromBe32(a.value) == Xor32(crypto.crc32(raw[..a.headerStart]), FINGERPRINT_XOR))
    }
  }

  predicate HeaderAccepted(raw: bytes) {
    && HEADER_SIZE <= |raw|
    && 0 < FromBe16(raw[0..2]) < 0x4000
    && raw[4..8] == COOKIE_BYTES
    && FromBe16(raw[2..4]) % 4 == 0
    && |raw| == HEADER_SIZE + FromBe16(raw[2..4])
  }

  function Decode(raw: bytes): (r: Result<Message>)
    ensures r.Ok? ==> r.value.Valid()
  {
    if HeaderAccepted(raw) && Walks(raw, HEADER_SIZE) then
      Ok(Message(raw, FromBe16(raw[0..2]), raw[8..20]))
    else Err
  }

  /** Every attribute of an accepted message lies inside it, so the slices the iterator and its
      clients take cannot go out of range. */
  lemma {:induction false} AttributesWithin(raw: bytes, position: nat)
    requires Walks(raw, position)
    ensures forall a :: a in AttributesAt(raw, position) ==>
              position <= a.headerStart && a.headerStart + 4 + |a.value| <= |raw|
    decreases |raw| - position
  {
    if position != |raw| {
      AttributesWithin(raw, position + 4 + Padded(LengthAt(raw, position)));
    }
  }

  /** The accepting walk of the decoder. */
  method DecodeMessage(raw: bytes) returns (r: Result<Message>)
    ensures r == Decode(raw)
  {
    if |raw| < HEADER_SIZE {
      return Err;
    }
    var kind := FromBe16(raw[0..2]);
    if kind >= 0x4000 || kind == 0 || raw[4..8] != COOKIE_BYTES {
      return Err;
    }
    var declared := FromBe16(raw[2..4]);
    if declared % 4 != 0 || |raw| != HEADER_SIZE + declared {
      return Err;
    }
    var position := HEADER_SIZE;
    while position < |raw|
      invariant HEADER_SIZE <= position <= |raw|
      invariant Walks(raw, HEADER_SIZE) == Walks(raw, position)
    {
      if |raw| - position < 4 {
        return Err;
      }
      var next := position + 4 + Padded(LengthAt(raw, position));
      if next > |raw| {
        return Err;
      }
      position := next;
    }
    r := Ok(Message(raw, kind, raw[8..20]));
  }

  /** The attribute iterator: `position` advances over the message in place. */
  class AttributeIterator {
    const raw: bytes
    var position: nat

    ghost predicate Valid()
      reads this
    {
      Walks(raw, position)
    }

    constructor (message: Message)
      requires message.Valid()
      ensures Valid() && raw == message.raw && position == HEADER_SIZE
    {
      raw := message.raw;
      position := HEADER_SIZE;
    }

    /** One step yields the head of the remaining attributes and leaves the tail. */
    method Next() returns (item: Option<Attribute>)
      requires Valid()
      modifies this
      ensures Valid()
      ensures match item
              case None => AttributesAt(raw, old(position)) == [] && position == old(position)
              case Some(a) =>
                AttributesAt(raw, old(position)) == [a] + AttributesAt(raw, position)
                && old(position) < position
    {
      if position >= |raw| {
        return None;
      }
      var length := LengthAt(raw, position);
      item := Some(Attribute(Alias(FromBe16(raw[position..position + 2])),
                             raw[position + 4..position + 4 + length],
                             position));
      position := position + 4 + Padded(length);
    }
  }

  /** First attribute of a kind, by draining the iterator. */
  method FindAttribute(message: Message, target: u16) returns (found: Option<Attribute>)
    requires message.Valid()
    ensures found == message.Attribute(target)
  {
    var iterator_ := new AttributeIterator(message);
    while true
      invariant iterator_.Valid() && fresh(iterator_) && iterator_.raw == message.raw
      invariant iterator_.position <= |message.raw|
      invariant Find(AttributesAt(message.raw, iterator_.position), target)
                == message.Attribute(target)
      decreases |message.raw| - iterator_.position
    {
      found := iterator_.Next();
      if found.None? || found.value.kind == target {
        return;
      }
    }
  }
}
