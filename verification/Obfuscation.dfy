/** RTP-shaped obfuscation of packets (RFC 3550, section 5.1, with the header extension of RFC 8285,
    section 4.2): what is put on the wire and what is taken off it. */
module Obfuscation {
  import opened Bytes
  import opened Addresses
  import opened Packets
  import opened RtpIndex

  type Octets10 = s: bytes | |s| == 10 witness Zeros(10)
  type u24 = x: int | 0 <= x < 0x100_0000

  const HEADER_LEN: nat := 24

  datatype Mode = Audio | Video

  datatype Sealed = Sealed(text: bytes, tag: Octets16)

  /** The cryptographic primitives. Nothing is assumed of them but the laws below. */
  datatype Cipher = Cipher(
    keystream: (Octets16, nat) -> bytes,
    mac: bytes -> Octets10,
    seal: (Octets12, bytes, bytes) -> Sealed,
    open: (Octets12, bytes, bytes, Octets16) -> Option<bytes>)
  {
    /** A keystream is as long as asked for, sealing keeps the length, and opening inverts sealing. */
    ghost predicate Lawful() {
      && (forall iv, n :: |keystream(iv, n)| == n)
      && (forall nonce, aad, text :: |seal(nonce, aad, text).text| == |text|)
      && (forall nonce, aad, text, tag ::
            open(nonce, aad, text, tag).Some? ==> |open(nonce, aad, text, tag).value| == |text|)
      && (forall nonce, aad, text ::
            open(nonce, aad, seal(nonce, aad, text).text, seal(nonce, aad, text).tag) == Some(text))
    }
  }

  datatype ObfsConfig = ObfsConfig(mode: Mode, ssrc: u32) {
    function PayloadType(): byte {
      if mode == Audio then 111 else 96
    }

    function PaddingMax(): nat {
      if mode == Audio then 24 else 60
    }
  }

  /** Everything a wrap takes from the clock and the random source. */
  datatype Draws = Draws(padding: bytes, marker: bool, timestamp: u32, sendTime: u24)

  predicate Drawable(config: ObfsConfig, d: Draws) {
    |d.padding| < config.PaddingMax() && (d.marker ==> config.mode == Video)
  }

  function Header(config: ObfsConfig, d: Draws, sequence: u16, transport: u16): (h: bytes)
    ensures |h| == HEADER_LEN
  {
    [0xb0, config.PayloadType() + (if d.marker then 0x80 else 0)]
    + Be16(sequence) + Be32(d.timestamp) + Be32(config.ssrc)
    + [0xbe, 0xde] + Be16(2)
    + [0x32, d.sendTime / 0x1_0000, d.sendTime / 0x100 % 0x100, d.sendTime % 0x100]
    + [0x51] + Be16(transport) + [0]
  }

  function Nonce(ssrc: u32, sequence: u16, timestamp: u32): Octets12 {
    Be32(ssrc) + Be16(sequence) + [0, 0] + Be32(timestamp)
  }

  function Iv(ssrc: u32, sequence: u16, timestamp: u32): Octets16 {
    Nonce(ssrc, sequence, timestamp) + Zeros(4)
  }

  function Keystreamed(cipher: Cipher, iv: Octets16, text: bytes): (r: bytes)
    ensures cipher.Lawful() ==> |r| == |text|
  {
    var stream := cipher.keystream(iv, |text|);
    if |stream| == |text| then XorBytes(text, stream) else text
  }

  lemma KeystreamTwice(cipher: Cipher, iv: Octets16, text: bytes)
    requires cipher.Lawful()
    ensures Keystreamed(cipher, iv, Keystreamed(cipher, iv, text)) == text
  {
    XorBytesInvolution(text, cipher.keystream(iv, |text|));
  }

  /** The padding and its length octet. */
  function Trailer(d: Draws): bytes
    requires |d.padding| < 255
  {
    d.padding + [|d.padding| + 1]
  }

  /** How far the tail of a packet grows. */
  function TailLength(mode: Mode, padding: nat): nat {
    padding + 1 + (if mode == Video then 10 else 16)
  }

  function Wire(cipher: Cipher, config: ObfsConfig, payload: bytes, d: Draws, sequence: u16,
                transport: u16): bytes
    requires Drawable(config, d)
  {
    var header := Header(config, d, sequence, transport);
    match config.mode
    case Video =>
      var covered := header
                     + Keystreamed(cipher, Iv(config.ssrc, sequence, d.timestamp), payload)
                     + Trailer(d);
      covered + cipher.mac(covered)
    case Audio =>
      var sealed := cipher.seal(Nonce(config.ssrc, sequence, d.timestamp), header, payload);
      header + sealed.text + sealed.tag + Trailer(d)
  }

  // ---------------------------------------------------------------- taking a packet off the wire

  /** Where the header of an RTP packet ends and what its fixed part says. */
  datatype Parsed = Parsed(payloadType: byte, sequence: u16, timestamp: u32, ssrc: u32, headerLen: nat,
                           padded: bool)

  function Parse(wire: bytes): (r: Result<Parsed>)
    ensures r.Ok? ==> 12 <= r.value.headerLen <= |wire|
  {
    if |wire| < 13 || wire[0] / 0x40 != 2 then Err
    else
      var payloadType := wire[1] % 0x80;
      if payloadType != 111 && payloadType != 96 && payloadType != 6 then Err
      else
        var extended := wire[0] / 0x10 % 2 == 1;
        if extended && |wire| < 16 then Err
        else
          var headerLen := if extended then 16 + FromBe16(wire[14..16]) * 4 else 12;
          if |wire| < headerLen then Err
          else Ok(Parsed(payloadType, FromBe16(wire[2..4]), FromBe32(wire[4..8]), FromBe32(wire[8..12]),
                         headerLen, wire[0] / 0x20 % 2 == 1))
  }

  /** The end of the payload before `end`, after removing padding when the header announces it. */
  function Unpadded(wire: bytes, p: Parsed, end: nat): (r: Result<nat>)
    requires 12 <= p.headerLen <= end <= |wire|
    ensures r.Ok? ==> p.headerLen <= r.value <= end
  {
    if !p.padded then Ok(end)
    else
      var padding: nat := wire[end - 1];
      if padding == 0 || padding > end - p.headerLen then Err else Ok(end - padding)
  }

  /** Where the payload lies and what it is. */
  datatype Opened = Opened(sequence: u16, from: nat, to: nat, payload: bytes)

  function Unwrap(cipher: Cipher, wire: bytes, mode: Mode): Result<Opened> {
    match Parse(wire)
    case Err => Err
    case Ok(p) => if mode == Video then OpenVideo(cipher, wire, p) else OpenAudio(cipher, wire, p)
  }

  function OpenVideo(cipher: Cipher, wire: bytes, p: Parsed): Result<Opened>
    requires 12 <= p.headerLen <= |wire|
  {
    if |wire| < p.headerLen + 10 then Err
    else
      var tagStart := |wire| - 10;
      if cipher.mac(wire[..tagStart]) != wire[tagStart..] then Err
      else
        match Unpadded(wire, p, tagStart)
        case Err => Err
        case Ok(end) =>
          Ok(Opened(p.sequence, p.headerLen, end,
                    Keystreamed(cipher, Iv(p.ssrc, p.sequence, p.timestamp), wire[p.headerLen..end])))
  }

  function OpenAudio(cipher: Cipher, wire: bytes, p: Parsed): Result<Opened>
    requires 12 <= p.headerLen <= |wire|
  {
    if p.payloadType != 111 then Err
    else
      match Unpadded(wire, p, |wire|)
      case Err => Err
      case Ok(end) =>
        if end <= p.headerLen + 16 then Err
        else
          var tagStart := end - 16;
          match cipher.open(Nonce(p.ssrc, p.sequence, p.timestamp), wire[..p.headerLen],
                            wire[p.headerLen..tagStart], wire[tagStart..end])
          case None => Err
          case Some(payload) => Ok(Opened(p.sequence, p.headerLen, tagStart, payload))
  }

  // ---------------------------------------------------------------- the round trip

  lemma HeaderParses(config: ObfsConfig, d: Draws, sequence: u16, transport: u16, rest: bytes)
    requires Drawable(config, d)
    ensures Parse(Header(config, d, sequence, transport) + rest)
            == Ok(Parsed(config.PayloadType(), sequence, d.timestamp, config.ssrc, HEADER_LEN, true))
  {
    var wire := Header(config, d, sequence, transport) + rest;
    assert wire[2..4] == Be16(sequence);
    assert wire[4..8] == Be32(d.timestamp);
    assert wire[8..12] == Be32(config.ssrc);
    assert wire[14..16] == Be16(2);
  }

  lemma UnwrapVideo(cipher: Cipher, config: ObfsConfig, payload: bytes, d: Draws, sequence: u16,
                    transport: u16)
    requires cipher.Lawful() && Drawable(config, d) && config.mode == Video
    ensures Unwrap(cipher, Wire(cipher, config, payload, d, sequence, transport), Video)
            == Ok(Opened(sequence, HEADER_LEN, HEADER_LEN + |payload|, payload))
  {
    hide Header;
    hide Parse;
    hide Nonce;
    hide Iv;
    var header, iv := Header(config, d, sequence, transport), Iv(config.ssrc, sequence, d.timestamp);
    var wire := Wire(cipher, config, payload, d, sequence, transport);
    var text := Keystreamed(cipher, iv, payload);
    KeystreamTwice(cipher, iv, payload);
    hide Keystreamed;
    var covered := header + text + Trailer(d);
    HeaderParses(config, d, sequence, transport, text + Trailer(d) + cipher.mac(covered));
    assert wire == header + (text + Trailer(d) + cipher.mac(covered));
    assert wire[..|wire| - 10] == covered && wire[|wire| - 10..] == cipher.mac(covered);
    assert covered[|covered| - 1] == |d.padding| + 1;
    assert wire[HEADER_LEN..HEADER_LEN + |payload|] == text;
  }

  lemma UnwrapAudio(cipher: Cipher, config: ObfsConfig, payload: bytes, d: Draws, sequence: u16,
                    transport: u16)
    requires cipher.Lawful() && Drawable(config, d) && config.mode == Audio && payload != []
    ensures Unwrap(cipher, Wire(cipher, config, payload, d, sequence, transport), Audio)
            == Ok(Opened(sequence, HEADER_LEN, HEADER_LEN + |payload|, payload))
  {
    hide Header;
    hide Parse;
    hide Nonce;
    var header := Header(config, d, sequence, transport);
    var wire := Wire(cipher, config, payload, d, sequence, transport);
    var sealed := cipher.seal(Nonce(config.ssrc, sequence, d.timestamp), header, payload);
    HeaderParses(config, d, sequence, transport, sealed.text + sealed.tag + Trailer(d));
    assert wire == header + (sealed.text + sealed.tag + Trailer(d));
    assert wire[|wire| - 1] == |d.padding| + 1;
    var end := |wire| - |Trailer(d)|;
    assert wire[..HEADER_LEN] == header;
    assert wire[HEADER_LEN..end - 16] == sealed.text;
    assert wire[end - 16..end] == sealed.tag;
  }

  /** Unwrapping what was wrapped gives back the sequence number and the payload, at the place in the
      packet where the payload was, for every padding draw and both modes. */
  lemma UnwrapWire(cipher: Cipher, config: ObfsConfig, payload: bytes, d: Draws, sequence: u16,
                   transport: u16)
    requires cipher.Lawful() && Drawable(config, d) && payload != []
    ensures Unwrap(cipher, Wire(cipher, config, payload, d, sequence, transport), config.mode)
            == Ok(Opened(sequence, HEADER_LEN, HEADER_LEN + |payload|, payload))
  {
    if config.mode == Video {
      UnwrapVideo(cipher, config, payload, d, sequence, transport);
    } else {
      UnwrapAudio(cipher, config, payload, d, sequence, transport);
    }
  }

  // ---------------------------------------------------------------- what is accepted, byte by byte

  function Word(high: byte, low: byte): u16 {
    var h: nat, l: nat := high, low;
    h * 0x100 + l
  }

  /** An RTP header (RFC 3550, section 5.1) of one of these payload types: twelve octets, and with the
      extension bit set an extension of as many words as it announces. */
  predicate RtpHeader(header: bytes, payloadTypes: set<byte>) {
    && |header| >= 12
    && 0x80 <= header[0] < 0xc0
    && header[1] % 0x80 in payloadTypes
    && if header[0] / 0x10 % 2 == 1
       then |header| >= 16 && |header| == 16 + 4 * Word(header[14], header[15])
       else |header| == 12
  }

  /** The padding of the same section: present exactly when announced, its last octet counting it. */
  predicate RtpPadding(header: bytes, padding: bytes)
    requires |header| >= 12
  {
    if header[0] / 0x20 % 2 == 1 then padding != [] && padding[|padding| - 1] == |padding|
    else padding == []
  }

  /** SSRC, sequence number, two zero octets, timestamp. */
  function NonceIn(header: bytes): Octets12
    requires |header| >= 12
  {
    header[8..12] + header[2..4] + [0, 0] + header[4..8]
  }

  predicate Places(header: bytes, text: bytes, o: Opened)
    requires |header| >= 12
  {
    o.sequence == Word(header[2], header[3]) && o.from == |header| && o.to == |header| + |text|
  }

  /** A video packet: header, encrypted payload and padding, and the ten-octet tag of all of it. */
  ghost predicate VideoParts(cipher: Cipher, wire: bytes, o: Opened, header: bytes, text: bytes,
                             padding: bytes)
  {
    && RtpHeader(header, {111, 96, 6}) && RtpPadding(header, padding) && Places(header, text, o)
    && wire == header + text + padding + cipher.mac(header + text + padding)
    && var stream := cipher.keystream(NonceIn(header) + [0, 0, 0, 0], |text|);
       |stream| == |text| && o.payload == XorBytes(text, stream)
  }

  /** An audio packet: header, sealed payload that is not empty, its tag, padding. */
  ghost predicate AudioParts(cipher: Cipher, wire: bytes, o: Opened, header: bytes, text: bytes,
                             tag: Octets16, padding: bytes)
  {
    && RtpHeader(header, {111}) && RtpPadding(header, padding) && Places(header, text, o)
    && text != [] && wire == header + text + tag + padding
    && cipher.open(NonceIn(header), header, text, tag) == Some(o.payload)
  }

  /** The packets that authenticate, and what is taken from them. */
  ghost predicate Authentic(cipher: Cipher, mode: Mode, wire: bytes, o: Opened) {
    match mode
    case Video => exists header, text, padding :: VideoParts(cipher, wire, o, header, text, padding)
    case Audio => exists header, text, tag, padding :: AudioParts(cipher, wire, o, header, text, tag, padding)
  }

  lemma Pieces(w: bytes, a: bytes, b: bytes, c: bytes, d: bytes, i: nat, j: nat, k: nat)
    requires w == a + b + c + d && i == |a| && j == i + |b| && k == j + |c|
    ensures k <= |w| && w[..i] == a && w[i..j] == b && w[j..k] == c && w[k..] == d && w[..k] == a + b + c
    ensures w == a + (b + c + d)
  {
  }

  lemma Cut(w: bytes, i: nat, j: nat, k: nat)
    requires i <= j <= k <= |w|
    ensures w == w[..i] + w[i..j] + w[j..k] + w[k..]
    ensures w[..k] == w[..i] + w[i..j] + w[j..k]
  {
  }

  lemma NonceRead(header: bytes)
    requires |header| >= 12
    ensures Nonce(FromBe32(header[8..12]), FromBe16(header[2..4]), FromBe32(header[4..8])) == NonceIn(header)
  {
    Be32Inverse(header[8..12]);
    Be16Inverse(header[2..4]);
    Be32Inverse(header[4..8]);
  }

  lemma ParsedHeader(wire: bytes)
    requires Parse(wire).Ok?
    ensures var p := Parse(wire).value;
            var header := wire[..p.headerLen];
            && RtpHeader(header, {111, 96, 6}) && p.payloadType == header[1] % 0x80
            && p.sequence == Word(header[2], header[3])
            && (p.padded <==> header[0] / 0x20 % 2 == 1)
            && Nonce(p.ssrc, p.sequence, p.timestamp) == NonceIn(header)
  {
    var header := wire[..Parse(wire).value.headerLen];
    assert header[8..12] == wire[8..12] && header[2..4] == wire[2..4] && header[4..8] == wire[4..8];
    NonceRead(header);
    hide Nonce;
    hide NonceIn;
  }

  lemma HeaderParsed(header: bytes, rest: bytes)
    requires RtpHeader(header, {111, 96, 6}) && rest != []
    ensures var p := Parse(header + rest);
            && p.Ok? && p.value.headerLen == |header| && p.value.payloadType == header[1] % 0x80
            && p.value.sequence == Word(header[2], header[3])
            && (p.value.padded <==> header[0] / 0x20 % 2 == 1)
            && Nonce(p.value.ssrc, p.value.sequence, p.value.timestamp) == NonceIn(header)
  {
    var wire := header + rest;
    assert wire[8..12] == header[8..12] && wire[2..4] == header[2..4] && wire[4..8] == header[4..8];
    if header[0] / 0x10 % 2 == 1 {
      assert wire[14..16] == header[14..16];
    }
    NonceRead(header);
    hide Nonce;
    hide NonceIn;
  }

  /** Padding as announced is what lies between the end found and the end given. */
  lemma UnpaddedExactly(wire: bytes, p: Parsed, to: nat, end: nat)
    requires 12 <= p.headerLen <= to <= end <= |wire|
    requires p.padded <==> wire[0] / 0x20 % 2 == 1
    ensures Unpadded(wire, p, end) == Ok(to)
            <==> RtpPadding(wire[..p.headerLen], wire[to..end])
  {
    var padding := wire[to..end];
    if padding != [] {
      assert padding[|padding| - 1] == wire[end - 1];
    }
  }

  lemma VideoForm(cipher: Cipher, wire: bytes, p: Parsed, o: Opened)
    requires cipher.Lawful() && Parse(wire) == Ok(p)
    ensures Unwrap(cipher, wire, Video) == Ok(o)
            <==> && |wire| >= p.headerLen + 10
                 && cipher.mac(wire[..|wire| - 10]) == wire[|wire| - 10..]
                 && Unpadded(wire, p, |wire| - 10) == Ok(o.to)
                 && o.sequence == p.sequence && o.from == p.headerLen
                 && var text := wire[p.headerLen..o.to];
                    var stream := cipher.keystream(Nonce(p.ssrc, p.sequence, p.timestamp) + [0, 0, 0, 0], |text|);
                    o.payload == XorBytes(text, stream)
  {
    hide Parse;
    hide Nonce;
    hide Unpadded;
    assert Iv(p.ssrc, p.sequence, p.timestamp) == Nonce(p.ssrc, p.sequence, p.timestamp) + [0, 0, 0, 0];
    hide Iv;
    hide XorBytes;
  }

  lemma VideoGathers(cipher: Cipher, wire: bytes, o: Opened, header: bytes, text: bytes, padding: bytes,
                     stream: bytes)
    requires RtpHeader(header, {111, 96, 6}) && |header| >= 12 && RtpPadding(header, padding)
    requires o.sequence == Word(header[2], header[3]) && o.from == |header| && o.to == |header| + |text|
    requires wire == header + text + padding + cipher.mac(header + text + padding)
    requires stream == cipher.keystream(NonceIn(header) + [0, 0, 0, 0], |text|)
    requires |stream| == |text| && o.payload == XorBytes(text, stream)
    ensures Authentic(cipher, Video, wire, o)
  {
    hide RtpHeader;
    hide RtpPadding;
    hide NonceIn;
    hide XorBytes;
    assert VideoParts(cipher, wire, o, header, text, padding);
  }

  lemma OpenedVideo(cipher: Cipher, wire: bytes, o: Opened)
    requires cipher.Lawful() && Unwrap(cipher, wire, Video) == Ok(o)
    ensures Authentic(cipher, Video, wire, o)
  {
    OpenedParses(cipher, Video, wire);
    var p := Parse(wire).value;
    var end := |wire| - 10;
    LawfulStream(cipher);
    hide *;
    ParsedHeader(wire);
    VideoForm(cipher, wire, p, o);
    UnpaddedExactly(wire, p, o.to, end);
    Cut(wire, p.headerLen, o.to, end);
    var header, text, padding := wire[..p.headerLen], wire[p.headerLen..o.to], wire[o.to..end];
    VideoGathers(cipher, wire, o, header, text, padding,
                 cipher.keystream(NonceIn(header) + [0, 0, 0, 0], |text|));
  }

  lemma OpenedParses(cipher: Cipher, mode: Mode, wire: bytes)
    requires Unwrap(cipher, wire, mode).Ok?
    ensures Parse(wire).Ok?
  {
    hide Parse;
  }

  lemma LawfulStream(cipher: Cipher)
    requires cipher.Lawful()
    ensures forall iv: Octets16, n: nat :: |cipher.keystream(iv, n)| == n
  {
  }

  lemma VideoFits(cipher: Cipher, wire: bytes, p: Parsed, o: Opened, end: nat, text: bytes, stream: bytes)
    requires cipher.Lawful() && Parse(wire) == Ok(p)
    requires end + 10 == |wire| && p.headerLen <= end && Unpadded(wire, p, end) == Ok(o.to)
    requires wire[end..] == cipher.mac(wire[..end]) && wire[p.headerLen..o.to] == text
    requires o.sequence == p.sequence && o.from == p.headerLen
    requires stream == cipher.keystream(Nonce(p.ssrc, p.sequence, p.timestamp) + [0, 0, 0, 0], |text|)
    requires |stream| == |text| && o.payload == XorBytes(text, stream)
    ensures Unwrap(cipher, wire, Video) == Ok(o)
  {
    hide *;
    VideoForm(cipher, wire, p, o);
  }

  lemma VideoOpens(cipher: Cipher, wire: bytes, o: Opened, header: bytes, text: bytes, padding: bytes)
    requires cipher.Lawful() && VideoParts(cipher, wire, o, header, text, padding)
    ensures Unwrap(cipher, wire, Video) == Ok(o)
  {
    VideoSays(cipher, wire, o, header, text, padding);
    hide *;
    var covered := header + text + padding;
    var tag := cipher.mac(covered);
    var end := |covered|;
    Pieces(wire, header, text, padding, tag, o.from, o.to, end);
    HeaderParsed(header, text + padding + tag);
    var p := Parse(wire).value;
    UnpaddedExactly(wire, p, o.to, end);
    VideoFits(cipher, wire, p, o, end, text, cipher.keystream(NonceIn(header) + [0, 0, 0, 0], |text|));
  }

  lemma VideoSays(cipher: Cipher, wire: bytes, o: Opened, header: bytes, text: bytes, padding: bytes)
    requires VideoParts(cipher, wire, o, header, text, padding)
    ensures RtpHeader(header, {111, 96, 6}) && |header| >= 12 && RtpPadding(header, padding)
    ensures o.sequence == Word(header[2], header[3]) && o.from == |header| && o.to == |header| + |text|
    ensures wire == header + text + padding + cipher.mac(header + text + padding) && wire[0] == header[0]
    ensures var stream := cipher.keystream(NonceIn(header) + [0, 0, 0, 0], |text|);
            |stream| == |text| && o.payload == XorBytes(text, stream)
  {
  }

  lemma AudioForm(cipher: Cipher, wire: bytes, p: Parsed, o: Opened)
    requires cipher.Lawful() && Parse(wire) == Ok(p)
    ensures Unwrap(cipher, wire, Audio) == Ok(o)
            <==> && p.payloadType == 111 && p.headerLen < o.to && o.to + 16 <= |wire|
                 && Unpadded(wire, p, |wire|) == Ok(o.to + 16)
                 && o.sequence == p.sequence && o.from == p.headerLen
                 && cipher.open(Nonce(p.ssrc, p.sequence, p.timestamp), wire[..p.headerLen],
                                wire[p.headerLen..o.to], wire[o.to..o.to + 16]) == Some(o.payload)
  {
    hide Parse;
    hide Nonce;
    hide Unpadded;
  }

  lemma AudioGathers(cipher: Cipher, wire: bytes, o: Opened, header: bytes, text: bytes, tag: Octets16,
                     padding: bytes)
    requires RtpHeader(header, {111, 96, 6}) && |header| >= 12 && header[1] % 0x80 == 111
    requires RtpPadding(header, padding) && text != []
    requires o.sequence == Word(header[2], header[3]) && o.from == |header| && o.to == |header| + |text|
    requires wire == header + text + tag + padding
    requires cipher.open(NonceIn(header), header, text, tag) == Some(o.payload)
    ensures Authentic(cipher, Audio, wire, o)
  {
    assert RtpHeader(header, {111});
    hide RtpHeader;
    hide RtpPadding;
    hide NonceIn;
    assert AudioParts(cipher, wire, o, header, text, tag, padding);
  }

  lemma OpenedAudio(cipher: Cipher, wire: bytes, o: Opened)
    requires cipher.Lawful() && Unwrap(cipher, wire, Audio) == Ok(o)
    ensures Authentic(cipher, Audio, wire, o)
  {
    OpenedParses(cipher, Audio, wire);
    var p := Parse(wire).value;
    hide *;
    ParsedHeader(wire);
    AudioForm(cipher, wire, p, o);
    var end := o.to + 16;
    assert wire[end..|wire|] == wire[end..];
    UnpaddedExactly(wire, p, end, |wire|);
    Cut(wire, p.headerLen, o.to, end);
    AudioGathers(cipher, wire, o, wire[..p.headerLen], wire[p.headerLen..o.to], wire[o.to..end], wire[end..]);
  }

  lemma AudioSays(cipher: Cipher, wire: bytes, o: Opened, header: bytes, text: bytes, tag: Octets16,
                  padding: bytes)
    requires AudioParts(cipher, wire, o, header, text, tag, padding)
    ensures RtpHeader(header, {111, 96, 6}) && |header| >= 12 && header[1] % 0x80 == 111
    ensures RtpPadding(header, padding) && text != []
    ensures o.sequence == Word(header[2], header[3]) && o.from == |header| && o.to == |header| + |text|
    ensures wire == header + text + tag + padding && wire[0] == header[0]
    ensures cipher.open(NonceIn(header), header, text, tag) == Some(o.payload)
  {
  }

  lemma AudioFits(cipher: Cipher, wire: bytes, p: Parsed, o: Opened, end: nat, text: bytes, tag: Octets16)
    requires cipher.Lawful() && Parse(wire) == Ok(p) && p.payloadType == 111
    requires p.headerLen < o.to && end == o.to + 16 <= |wire| && Unpadded(wire, p, |wire|) == Ok(end)
    requires o.sequence == p.sequence && o.from == p.headerLen
    requires wire[p.headerLen..o.to] == text && wire[o.to..end] == tag
    requires cipher.open(Nonce(p.ssrc, p.sequence, p.timestamp), wire[..p.headerLen], text, tag)
             == Some(o.payload)
    ensures Unwrap(cipher, wire, Audio) == Ok(o)
  {
    hide *;
    AudioForm(cipher, wire, p, o);
  }

  lemma AudioOpens(cipher: Cipher, wire: bytes, o: Opened, header: bytes, text: bytes, tag: Octets16,
                   padding: bytes)
    requires cipher.Lawful() && AudioParts(cipher, wire, o, header, text, tag, padding)
    ensures Unwrap(cipher, wire, Audio) == Ok(o)
  {
    AudioSays(cipher, wire, o, header, text, tag, padding);
    hide *;
    var end := o.to + 16;
    Pieces(wire, header, text, tag, padding, o.from, o.to, end);
    HeaderParsed(header, text + tag + padding);
    var p := Parse(wire).value;
    assert wire[end..|wire|] == padding;
    UnpaddedExactly(wire, p, end, |wire|);
    AudioFits(cipher, wire, p, o, end, text, tag);
  }

  /** A packet is unwrapped exactly when its bytes fit together: header, announced padding, and a tag or
      seal that holds of all they have to cover. No other bytes give a sequence number or a payload. */
  lemma UnwrapExactly(cipher: Cipher, mode: Mode, wire: bytes, o: Opened)
    requires cipher.Lawful()
    ensures Unwrap(cipher, wire, mode) == Ok(o) <==> Authentic(cipher, mode, wire, o)
  {
    hide Unwrap;
    hide VideoParts;
    hide AudioParts;
    match mode
    case Video =>
      if Unwrap(cipher, wire, Video) == Ok(o) {
        OpenedVideo(cipher, wire, o);
      }
      if Authentic(cipher, Video, wire, o) {
        var header, text, padding :| VideoParts(cipher, wire, o, header, text, padding);
        VideoOpens(cipher, wire, o, header, text, padding);
      }
    case Audio =>
      if Unwrap(cipher, wire, Audio) == Ok(o) {
        OpenedAudio(cipher, wire, o);
      }
      if Authentic(cipher, Audio, wire, o) {
        var header, text, tag, padding :| AudioParts(cipher, wire, o, header, text, tag, padding);
        AudioOpens(cipher, wire, o, header, text, tag, padding);
      }
  }

  /** In particular a video packet opens only if its last ten bytes are the tag of all before them. */
  lemma VideoTagHolds(cipher: Cipher, wire: bytes)
    requires cipher.Lawful() && Unwrap(cipher, wire, Video).Ok?
    ensures |wire| > 10 && wire[|wire| - 10..] == cipher.mac(wire[..|wire| - 10])
  {
    hide Unwrap;
    var o := Unwrap(cipher, wire, Video).value;
    UnwrapExactly(cipher, Video, wire, o);
    var header, text, padding :| VideoParts(cipher, wire, o, header, text, padding);
    assert wire[..|wire| - 10] == header + text + padding;
  }

  // ---------------------------------------------------------------- what a header says

  /** The elements of a one-byte-header extension (RFC 8285, section 4.2): identifier and data, up to the
      padding. */
  function Elements(extension: bytes): seq<(nat, bytes)>
    decreases |extension|
  {
    if extension == [] then []
    else if extension[0] == 0 then Elements(extension[1..])
    else
      var n := 2 + extension[0] % 0x10;
      if |extension| < n then []
      else [(extension[0] / 0x10, extension[1..n])] + Elements(extension[n..])
  }

  /** The header is an RTP header with padding, extension, payload type and marker of the mode, and its
      extension holds the send time as element 3 and the transport number as element 5. */
  lemma HeaderSays(config: ObfsConfig, d: Draws, sequence: u16, transport: u16)
    requires Drawable(config, d)
    ensures var header := Header(config, d, sequence, transport);
            && RtpHeader(header, {if config.mode == Video then 96 else 111})
            && header[0] / 0x20 % 2 == 1 && header[0] / 0x10 % 2 == 1
            && (header[1] >= 0x80 <==> d.marker)
            && header[2..4] == Be16(sequence) && header[4..8] == Be32(d.timestamp)
            && header[8..12] == Be32(config.ssrc) && header[12..14] == [0xbe, 0xde]
            && var elements := Elements(header[16..]);
               && |elements| == 2
               && elements[0].0 == 3 && |elements[0].1| == 3
               && FromBe32([0] + elements[0].1) == d.sendTime
               && elements[1] == (5, Be16(transport))
  {
    var header := Header(config, d, sequence, transport);
    var time := HeaderPieces(config, d, sequence, transport);
    TwoElements(header[16..], time, Be16(transport));
    hide Be16;
    hide Be32;
    hide FromBe32;
    hide Elements;
  }

  lemma HeaderPieces(config: ObfsConfig, d: Draws, sequence: u16, transport: u16) returns (time: bytes)
    requires Drawable(config, d)
    ensures var header := Header(config, d, sequence, transport);
            && header[2..4] == Be16(sequence) && header[4..8] == Be32(d.timestamp)
            && header[8..12] == Be32(config.ssrc) && header[12..14] == [0xbe, 0xde]
            && header[14] == 0 && header[15] == 2
            && header[16..] == [0x32] + time + [0x51] + Be16(transport) + [0]
    ensures |time| == 3 && FromBe32([0] + time) == d.sendTime
  {
    time := [d.sendTime / 0x1_0000, d.sendTime / 0x100 % 0x100, d.sendTime % 0x100];
    assert [0] + time == [0, d.sendTime / 0x1_0000, d.sendTime / 0x100 % 0x100, d.sendTime % 0x100];
    SendTime(d.sendTime);
    hide Be32;
    hide FromBe32;
  }

  lemma TwoElements(extension: bytes, time: bytes, transport: bytes)
    requires |time| == 3 && |transport| == 2 && extension == [0x32] + time + [0x51] + transport + [0]
    ensures Elements(extension) == [(3, time), (5, transport)]
  {
    var second := extension[4..];
    assert second == [0x51] + transport + [0];
    assert extension[1..4] == time && second[1..3] == transport && second[3..] == [0];
    assert Elements([0]) == [];
  }

  lemma SendTime(t: u24)
    ensures FromBe32([0, t / 0x1_0000, t / 0x100 % 0x100, t % 0x100]) == t
  {
    var b := [0, t / 0x1_0000, t / 0x100 % 0x100, t % 0x100];
    assert b[..2] == [0, t / 0x1_0000] && b[2..] == [t / 0x100 % 0x100, t % 0x100];
  }

  // ---------------------------------------------------------------- nonces

  /** A nonce tells source, number and timestamp. */
  lemma NonceIsUnique(ssrc: u32, sequence: u16, timestamp: u32, ssrc': u32, sequence': u16, timestamp': u32)
    ensures Nonce(ssrc, sequence, timestamp) == Nonce(ssrc', sequence', timestamp')
            <==> ssrc == ssrc' && sequence == sequence' && timestamp == timestamp'
    ensures Iv(ssrc, sequence, timestamp) == Iv(ssrc', sequence', timestamp')
            <==> ssrc == ssrc' && sequence == sequence' && timestamp == timestamp'
  {
    var a, b := Nonce(ssrc, sequence, timestamp), Nonce(ssrc', sequence', timestamp');
    assert a[..4] == Be32(ssrc) && a[4..6] == Be16(sequence) && a[8..] == Be32(timestamp);
    assert b[..4] == Be32(ssrc') && b[4..6] == Be16(sequence') && b[8..] == Be32(timestamp');
    assert Iv(ssrc, sequence, timestamp)[..12] == a && Iv(ssrc', sequence', timestamp')[..12] == b;
    hide Be32;
    hide Be16;
  }

  /** Two packets of one sender fewer than 2^16 apart never share a nonce or a counter block, whatever the
      timestamps. */
  lemma NoncesDiffer(ssrc: u32, initial: u16, i: nat, j: nat, timestamp: u32, timestamp': u32)
    requires i < j < i + BLOCK
    ensures Nonce(ssrc, Numbered(initial, i), timestamp) != Nonce(ssrc, Numbered(initial, j), timestamp')
    ensures Iv(ssrc, Numbered(initial, i), timestamp) != Iv(ssrc, Numbered(initial, j), timestamp')
  {
    NonceIsUnique(ssrc, Numbered(initial, i), timestamp, ssrc, Numbered(initial, j), timestamp');
    NumbersDiffer(initial, i, j);
    hide Nonce;
    hide Iv;
    hide Numbered;
  }

  lemma NumbersDiffer(initial: u16, i: nat, j: nat)
    requires i < j < i + BLOCK
    ensures Numbered(initial, i) != Numbered(initial, j)
  {
    var a, b := initial + i, initial + j;
    if a % BLOCK == b % BLOCK {
      assert b - a == (b / BLOCK - a / BLOCK) * BLOCK;
      ScaleAtLeast(BLOCK, b / BLOCK - a / BLOCK);
    }
  }
}
