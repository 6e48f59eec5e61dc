/** What bytes are a STUN message (RFC 8489, sections 5, 14, 14.2, 14.5 and 14.7), said without the decoder:
    the layout, the XOR of addresses octet by octet, the fingerprint and the signature at the end. */
module StunFormat {
  import opened Bytes
  import opened Addresses
  import opened StunMessages
  import opened StunBuilder
  import opened Signatures

  // ---------------------------------------------------------------- layout

  /** An attribute as it is written: type, value, and whatever pads it to a multiple of four. */
  datatype Tlv = Tlv(kind: u16, value: bytes, padding: bytes)

  predicate Proper(t: Tlv) {
    |t.value| < 0x1_0000 && |t.padding| < 4 && (|t.value| + |t.padding|) % 4 == 0
  }

  ghost predicate AllProper(tlvs: seq<Tlv>) {
    forall t :: t in tlvs ==> Proper(t)
  }

  function Octets2(n: u16): bytes {
    [n / 0x100, n % 0x100]
  }

  function Written(t: Tlv): bytes
    requires Proper(t)
  {
    Octets2(t.kind) + Octets2(|t.value|) + t.value + t.padding
  }

  ghost function Laid(tlvs: seq<Tlv>): bytes
    requires AllProper(tlvs)
  {
    if tlvs == [] then [] else Written(tlvs[0]) + Laid(tlvs[1..])
  }

  /** The attributes of a layout, with the place of each; 0x8020 is an older number of 0x0020. */
  function Named(position: nat, tlvs: seq<Tlv>): seq<Attribute>
    decreases |tlvs|
  {
    if tlvs == [] then []
    else
      var t := tlvs[0];
      [Attribute(if t.kind == 0x8020 then 0x0020 else t.kind, t.value, position)]
      + Named(position + 4 + |t.value| + |t.padding|, tlvs[1..])
  }

  /** Type, length, cookie and transaction, then the attributes to the end. */
  ghost predicate IsStun(raw: bytes, kind: u16, transaction: Octets12, tlvs: seq<Tlv>) {
    && AllProper(tlvs) && 0 < kind < 0x4000 && |Laid(tlvs)| < 0x1_0000
    && raw == Octets2(kind) + Octets2(|Laid(tlvs)|) + [0x21, 0x12, 0xa4, 0x42] + transaction + Laid(tlvs)
  }

  lemma PaddingIsPadded(length: nat, padding: nat)
    requires padding < 4 && (length + padding) % 4 == 0
    ensures Padded(length) == length + padding
  {
  }

  lemma Octets2Is(n: u16)
    ensures Octets2(n) == Be16(n)
  {
  }

  lemma {:induction false} LaidAligned(tlvs: seq<Tlv>)
    requires AllProper(tlvs)
    ensures |Laid(tlvs)| % 4 == 0
  {
    if tlvs != [] {
      var t := tlvs[0];
      LaidAligned(tlvs[1..]);
      assert Proper(t) && |Written(t)| == 4 + (|t.value| + |t.padding|);
      Mod4Sum(|t.value| + |t.padding|, |Laid(tlvs[1..])|);
      hide Written;
    }
  }

  /** One attribute at a position, and what follows it. */
  lemma ReadsTlv(raw: bytes, position: nat, t: Tlv, rest: bytes)
    requires Proper(t) && position <= |raw| && raw[position..] == Written(t) + rest
    ensures var next := position + 4 + |t.value| + |t.padding|;
            && next <= |raw| && raw[next..] == rest && LengthAt(raw, position) == |t.value|
            && next == position + 4 + Padded(|t.value|)
            && FromBe16(raw[position..position + 2]) == t.kind
            && raw[position + 4..position + 4 + |t.value|] == t.value
  {
    PaddingIsPadded(|t.value|, |t.padding|);
    hide Padded;
    var tail := raw[position..];
    assert tail == Octets2(t.kind) + (Octets2(|t.value|) + t.value + t.padding + rest);
    assert tail[..2] == Octets2(t.kind) && tail[2..4] == Octets2(|t.value|);
    assert tail[4..4 + |t.value|] == t.value && tail[4 + |t.value| + |t.padding|..] == rest;
    assert raw[position..position + 2] == tail[..2] && raw[position + 2..position + 4] == tail[2..4];
    assert raw[position + 4..position + 4 + |t.value|] == tail[4..4 + |t.value|];
    var n := 4 + |t.value| + |t.padding|;
    assert raw[position + n..] == tail[n..];
    Octets2Is(t.kind);
    Octets2Is(|t.value|);
    hide Octets2;
    hide Be16;
    hide FromBe16;
  }

  /** A layout is walked, attribute by attribute. */
  lemma {:induction false} LaidWalks(raw: bytes, position: nat, tlvs: seq<Tlv>)
    requires AllProper(tlvs) && position <= |raw| && raw[position..] == Laid(tlvs)
    ensures Walks(raw, position) && AttributesAt(raw, position) == Named(position, tlvs)
    decreases |tlvs|
  {
    hide Padded;
    hide LengthAt;
    hide FromBe16;
    if tlvs != [] {
      var t := tlvs[0];
      ReadsTlv(raw, position, t, Laid(tlvs[1..]));
      hide Written;
      LaidWalks(raw, position + 4 + |t.value| + |t.padding|, tlvs[1..]);
    }
  }

  /** And what is walked is a layout. */
  ghost function TlvsAt(raw: bytes, position: nat): seq<Tlv>
    requires Walks(raw, position)
    decreases |raw| - position
  {
    if position == |raw| then []
    else
      var end := position + 4 + LengthAt(raw, position);
      var next := position + 4 + Padded(LengthAt(raw, position));
      [Tlv(FromBe16(raw[position..position + 2]), raw[position + 4..end], raw[end..next])] + TlvsAt(raw, next)
  }

  lemma WritesTlv(raw: bytes, position: nat)
    requires Walks(raw, position) && position < |raw|
    ensures var t := TlvsAt(raw, position)[0];
            var next := position + 4 + Padded(LengthAt(raw, position));
            && next <= |raw| && Proper(t) && raw[position..next] == Written(t)
  {
    var end := position + 4 + LengthAt(raw, position);
    var next := position + 4 + Padded(LengthAt(raw, position));
    Be16Inverse(raw[position..position + 2]);
    Be16Inverse(raw[position + 2..position + 4]);
    assert raw[position..next] == raw[position..position + 2] + raw[position + 2..position + 4]
                                  + raw[position + 4..end] + raw[end..next];
    hide FromBe16;
  }

  lemma {:induction false} WalkedIsLaid(raw: bytes, position: nat)
    requires Walks(raw, position)
    ensures AllProper(TlvsAt(raw, position)) && raw[position..] == Laid(TlvsAt(raw, position))
    decreases |raw| - position
  {
    if position != |raw| {
      WritesTlv(raw, position);
      var next := position + 4 + Padded(LengthAt(raw, position));
      WalkedIsLaid(raw, next);
      hide Padded;
      hide LengthAt;
      hide Written;
      hide Proper;
      assert raw[position..] == raw[position..next] + raw[next..];
    }
  }

  lemma HeaderReads(raw: bytes, kind: u16, length: u16, transaction: Octets12, rest: bytes)
    requires raw == Octets2(kind) + Octets2(length) + [0x21, 0x12, 0xa4, 0x42] + transaction + rest
    ensures |raw| == 20 + |rest| && FromBe16(raw[0..2]) == kind && FromBe16(raw[2..4]) == length
    ensures raw[4..8] == [0x21, 0x12, 0xa4, 0x42] && raw[8..20] == transaction && raw[20..] == rest
  {
    assert raw[0..2] == Octets2(kind) && raw[2..4] == Octets2(length);
    Octets2Is(kind);
    Octets2Is(length);
    hide Octets2;
    hide Be16;
    hide FromBe16;
  }

  lemma HeaderIs(raw: bytes)
    requires |raw| >= 20 && raw[4..8] == [0x21, 0x12, 0xa4, 0x42]
    ensures raw == Octets2(FromBe16(raw[0..2])) + Octets2(FromBe16(raw[2..4])) + [0x21, 0x12, 0xa4, 0x42]
                   + raw[8..20] + raw[20..]
  {
    Be16Inverse(raw[0..2]);
    Be16Inverse(raw[2..4]);
    Octets2Is(FromBe16(raw[0..2]));
    Octets2Is(FromBe16(raw[2..4]));
    hide Octets2;
    hide Be16;
    hide FromBe16;
    assert raw == raw[0..2] + raw[2..4] + raw[4..8] + raw[8..20] + raw[20..];
  }

  /** What is laid out as a message decodes, to its type, its transaction and its attributes. */
  lemma StunDecodes(raw: bytes, kind: u16, transaction: Octets12, tlvs: seq<Tlv>)
    requires IsStun(raw, kind, transaction, tlvs)
    ensures Decode(raw) == Ok(Message(raw, kind, transaction))
    ensures Message(raw, kind, transaction).Attributes() == Named(20, tlvs)
  {
    LaidAligned(tlvs);
    HeaderReads(raw, kind, |Laid(tlvs)|, transaction, Laid(tlvs));
    LaidWalks(raw, 20, tlvs);
    hide Walks;
    hide AttributesAt;
    hide Laid;
    hide Named;
    hide FromBe16;
    hide Octets2;
  }

  lemma DecodedIsStun(raw: bytes)
    requires Decode(raw).Ok?
    ensures var m := Decode(raw).value;
            m.raw == raw && exists tlvs :: IsStun(raw, m.kind, m.transaction, tlvs)
  {
    var m := Decode(raw).value;
    var tlvs := TlvsAt(raw, 20);
    WalkedIsLaid(raw, 20);
    HeaderIs(raw);
    hide Walks;
    hide TlvsAt;
    hide Laid;
    hide FromBe16;
    hide Octets2;
    assert IsStun(raw, m.kind, m.transaction, tlvs);
  }

  /** The decoder accepts exactly the messages, each as what it is, and nothing else. */
  lemma DecodeExactly(raw: bytes, kind: u16, transaction: Octets12)
    ensures Decode(raw) == Ok(Message(raw, kind, transaction))
            <==> exists tlvs :: IsStun(raw, kind, transaction, tlvs)
    ensures Decode(raw).Ok? ==> Decode(raw).value.raw == raw
  {
    hide Decode;
    hide IsStun;
    if Decode(raw).Ok? {
      DecodedIsStun(raw);
    }
    if tlvs :| IsStun(raw, kind, transaction, tlvs) {
      StunDecodes(raw, kind, transaction, tlvs);
    }
  }

  // ---------------------------------------------------------------- exclusive-or, octet by octet

  lemma Halves(a: nat, p: nat, q: nat, r: nat)
    requires p > 0 && r < 2 * p && a == r + 2 * p * q
    ensures a / 2 == r / 2 + p * q && a % 2 == r % 2 && r / 2 < p
  {
    assert 2 * p * q == 2 * (p * q);
  }

  lemma Doubled(h: nat, p: nat, l: nat, bit: nat)
    ensures 2 * (h * p + l) + bit == h * (2 * p) + (2 * l + bit)
  {
    assert h * (2 * p) == 2 * (h * p);
  }

  lemma XorStep(width: nat, a: nat, b: nat)
    requires width > 0
    ensures Xor(width, a, b) == 2 * Xor(width - 1, a / 2, b / 2) + (if a % 2 == b % 2 then 0 else 1)
  {
  }

  lemma XorGrows(low: nat, half: nat, high: nat, a: nat, al: nat, b: nat, bl: nat, h: nat)
    requires low > 0 && half > 0 && a % 2 == al % 2 && b % 2 == bl % 2
    requires Xor(low - 1 + high, a / 2, b / 2) == h * half + Xor(low - 1, al / 2, bl / 2)
    ensures Xor(low + high, a, b) == h * (2 * half) + Xor(low, al, bl)
  {
    XorStep(low + high, a, b);
    XorStep(low, al, bl);
    hide Xor;
    assert low + high - 1 == low - 1 + high;
    Doubled(h, half, Xor(low - 1, al / 2, bl / 2), if al % 2 == bl % 2 then 0 else 1);
  }

  /** The low bits and the high bits are combined apart. */
  lemma {:induction false} XorApart(low: nat, p: nat, high: nat, a: nat, ah: nat, al: nat, b: nat, bh: nat, bl: nat)
    requires p == Pow2(low) && al < p && bl < p && a == al + p * ah && b == bl + p * bh
    ensures Xor(low + high, a, b) == Xor(high, ah, bh) * p + Xor(low, al, bl)
    decreases low
  {
    if low == 0 {
      assert a == ah && b == bh && Xor(low, al, bl) == 0;
    } else {
      var half := Pow2(low - 1);
      assert p == 2 * half;
      hide *;
      Halves(a, half, ah, al);
      Halves(b, half, bh, bl);
      XorApart(low - 1, half, high, a / 2, ah, al / 2, b / 2, bh, bl / 2);
      XorGrows(low, half, high, a, al, b, bl, Xor(high, ah, bh));
    }
  }

  /** Bit k of a number. */
  function Bit(n: nat, k: nat): nat {
    if k == 0 then n % 2 else Bit(n / 2, k - 1)
  }

  /** A bit of the exclusive-or is set exactly when one of the two is. */
  lemma {:induction false} XorBits(width: nat, a: nat, b: nat, k: nat)
    requires k < width
    ensures Bit(Xor(width, a, b), k) == 1 <==> Bit(a, k) != Bit(b, k)
    ensures Bit(a, k) < 2 && Bit(b, k) < 2
    decreases k
  {
    var x := Xor(width, a, b);
    assert x / 2 == Xor(width - 1, a / 2, b / 2);
    if k > 0 {
      XorBits(width - 1, a / 2, b / 2, k - 1);
    }
  }

  lemma Xor16Halves(a: u16, b: u16)
    ensures var high: nat, low: nat := XorByte(a / 0x100, b / 0x100), XorByte(a % 0x100, b % 0x100);
            Xor16(a, b) == high * 0x100 + low
  {
    Pow2Widths();
    XorApart(8, 0x100, 8, a, a / 0x100, a % 0x100, b, b / 0x100, b % 0x100);
    assert Xor16(a, b) == Xor(8 + 8, a, b);
    hide Xor;
    hide Pow2;
  }

  lemma Xor16Octets(a: u16, b: u16)
    ensures Be16(Xor16(a, b)) == XorBytes(Be16(a), Be16(b))
  {
    hide Xor16;
    hide XorByte;
    Xor16Halves(a, b);
    var high: nat, low: nat := XorByte(a / 0x100, b / 0x100), XorByte(a % 0x100, b % 0x100);
    Quotient(high * 0x100 + low, 0x100, high, low);
  }

  lemma Xor32Octets(a: u32, b: u32)
    ensures Be32(Xor32(a, b)) == XorBytes(Be32(a), Be32(b))
  {
    Pow2Widths();
    XorApart(16, 0x1_0000, 16, a, a / 0x1_0000, a % 0x1_0000, b, b / 0x1_0000, b % 0x1_0000);
    assert Xor32(a, b) == Xor(16 + 16, a, b);
    var high: nat, low: nat := Xor16(a / 0x1_0000, b / 0x1_0000), Xor16(a % 0x1_0000, b % 0x1_0000);
    assert high == Xor(16, a / 0x1_0000, b / 0x1_0000) && low == Xor(16, a % 0x1_0000, b % 0x1_0000);
    hide Xor;
    Quotient(high * 0x1_0000 + low, 0x1_0000, high, low);
    Xor16Octets(a / 0x1_0000, b / 0x1_0000);
    Xor16Octets(a % 0x1_0000, b % 0x1_0000);
    hide Xor16;
    hide Be16;
    XorJoined(Be16(a / 0x1_0000), Be16(a % 0x1_0000), Be16(b / 0x1_0000), Be16(b % 0x1_0000));
  }

  lemma XorJoined(a: bytes, a': bytes, b: bytes, b': bytes)
    requires |a| == |b| && |a'| == |b'|
    ensures XorBytes(a + a', b + b') == XorBytes(a, b) + XorBytes(a', b')
  {
  }

  /** The bytes of an encoded address: family, then port and address, octet by octet combined with the
      cookie, and for IPv6 with cookie and transaction. */
  lemma XorAddressOctets(address: SocketAddr, transaction: Octets12)
    ensures EncodeXorAddress(address, transaction)
            == [0, if address.ip.V4? then 1 else 2]
               + XorBytes(Octets2(address.port), [0x21, 0x12])
               + (match address.ip
                  case V4(octets) => XorBytes(octets, [0x21, 0x12, 0xa4, 0x42])
                  case V6(octets) => XorBytes(octets, [0x21, 0x12, 0xa4, 0x42] + transaction))
  {
    Xor16Octets(address.port, 0x2112);
    assert MAGIC_COOKIE / 0x1_0000 == 0x2112 && Be16(0x2112) == [0x21, 0x12];
    Octets2Is(address.port);
    if address.ip.V4? {
      Xor32Octets(FromBe32(address.ip.octets4), MAGIC_COOKIE);
      Be32Inverse(address.ip.octets4);
      CookieOctets();
    }
    hide XorBytes;
    hide Xor16;
    hide Xor32;
    hide Be32;
    hide FromBe32;
  }

  lemma CookieOctets()
    ensures Be32(MAGIC_COOKIE) == [0x21, 0x12, 0xa4, 0x42]
  {
    var b := Be32(MAGIC_COOKIE);
    assert b[..2] == [0x21, 0x12] && b[2..] == [0xa4, 0x42];
  }

  // ---------------------------------------------------------------- fingerprint and signature

  /** A fingerprint is valid exactly when it ends the message and is the checksum of all before it, octet by
      octet combined with the letters "STUN"; an invalid one is told from none. */
  lemma FingerprintExactly(crypto: StunCrypto, message: Message)
    requires message.Valid()
    ensures var found := message.Attribute(0x8028);
            && (message.FingerprintValid(crypto).None? <==> found.None?)
            && (message.FingerprintValid(crypto) == Some(true)
                <==> && found.Some? && |message.raw| >= 8 && found.value.headerStart == |message.raw| - 8
                     && found.value.value == XorBytes(Be32(crypto.crc32(message.raw[..|message.raw| - 8])),
                                                      [0x53, 0x54, 0x55, 0x4e]))
  {
    AttributesWithin(message.raw, HEADER_SIZE);
    hide Walks;
    hide AttributesAt;
    hide Find;
    hide XorBytes;
    hide Xor32;
    hide Be32;
    hide FromBe32;
    var found := message.Attribute(0x8028);
    if found.Some? && |message.raw| >= 8 && found.value.headerStart == |message.raw| - 8 {
      IsChecksum(crypto.crc32(message.raw[..|message.raw| - 8]), found.value.value);
    }
  }

  lemma IsChecksum(crc: u32, value: bytes)
    ensures var letters := XorBytes(Be32(crc), [0x53, 0x54, 0x55, 0x4e]);
            |letters| == 4
            && (value == letters <==> |value| == 4 && FromBe32(value) == Xor32(crc, FINGERPRINT_XOR))
  {
    Xor32Octets(crc, FINGERPRINT_XOR);
    StunLetters();
    if |value| == 4 {
      Be32Inverse(value);
    }
    hide XorBytes;
    hide Xor32;
    hide Be32;
    hide FromBe32;
  }

  lemma StunLetters()
    ensures Be32(FINGERPRINT_XOR) == [0x53, 0x54, 0x55, 0x4e]
  {
    var b := Be32(FINGERPRINT_XOR);
    assert b[..2] == [0x53, 0x54] && b[2..] == [0x55, 0x4e];
  }

  /** A signature that ends the message verifies exactly when it is the keyed hash of all before it. Any
      other verifies exactly when it does so in the message cut off behind it. */
  lemma SignedAtEnd(crypto: StunCrypto, message: Message, key: Octets16)
    requires Decode(message.raw) == Ok(message) && message.Attribute(0x0008).Some?
    requires message.Attribute(0x0008).value.headerStart + 24 == |message.raw|
    ensures VerifyIntegrity(crypto, message, Some(key))
            <==> message.Attribute(0x0008).value.value
                 == crypto.hmacSha1(key, message.raw[..|message.raw| - 24])
  {
    var raw, start := message.raw, |message.raw| - 24;
    AttributesWithin(raw, HEADER_SIZE);
    Be16Inverse(raw[2..4]);
    hide Walks;
    hide AttributesAt;
    hide Find;
    hide FromBe16;
    hide Be16;
    assert raw[..start] == raw[..2] + raw[2..4] + raw[4..start];
  }
}
