/** The path of one packet through one buffer: frame prefix, obfuscation and ChannelData framing
    (RFC 5766, section 11.4) on the way out, and the same taken off on the way in. */
module PacketPath {
  import opened Bytes
  import opened Packets
  import opened RtpIndex
  import opened ReplayWindow
  import opened Obfuscation

  // ---------------------------------------------------------------- the tunnel frame

  const FRAME_LEN: nat := 24
  const FRAME_MAGIC: bytes := [0x43, 0x51, 0x46, 0x31]

  datatype FrameHeader = FrameHeader(sender: u64, flow: u64, sequence: u32)

  function Be64(n: u64): (b: bytes)
    ensures |b| == 8 && FromBe64(b) == n
  {
    var high, low := Be32(n / 0x1_0000_0000), Be32(n % 0x1_0000_0000);
    assert (high + low)[..4] == high && (high + low)[4..] == low;
    high + low
  }

  function FromBe64(b: bytes): u64
    requires |b| == 8
  {
    var high: int, low: int := FromBe32(b[..4]), FromBe32(b[4..]);
    high * 0x1_0000_0000 + low
  }

  function EncodeFrame(h: FrameHeader): (b: bytes)
    ensures |b| == FRAME_LEN
  {
    FRAME_MAGIC + Be64(h.sender) + Be64(h.flow) + Be32(h.sequence)
  }

  function DecodeFrame(packet: bytes): Option<(FrameHeader, bytes)> {
    if |packet| < FRAME_LEN || packet[..4] != FRAME_MAGIC then None
    else Some((FrameHeader(FromBe64(packet[4..12]), FromBe64(packet[12..20]), FromBe32(packet[20..24])),
               packet[FRAME_LEN..]))
  }

  /** What the return path hands on: the payload of a frame, or the packet itself. */
  function FramePayload(packet: bytes): bytes {
    match DecodeFrame(packet)
    case None => packet
    case Some((_, payload)) => payload
  }

  lemma FrameRoundTrip(h: FrameHeader, payload: bytes)
    ensures DecodeFrame(EncodeFrame(h) + payload) == Some((h, payload))
  {
    var packet := EncodeFrame(h) + payload;
    assert packet[..4] == FRAME_MAGIC;
    assert packet[4..12] == Be64(h.sender);
    assert packet[12..20] == Be64(h.flow);
    assert packet[20..24] == Be32(h.sequence);
    assert packet[FRAME_LEN..] == payload;
  }

  /** The frame prefix of an outbound packet; packets without a flow go unframed. */
  lemma BigEndian8(n: u64)
    ensures BigEndian(Be64(n)) == n
  {
    var high, low := Be32(n / 0x1_0000_0000), Be32(n % 0x1_0000_0000);
    SpelledBigEndian(0, n / 0x1_0000_0000);
    SpelledBigEndian(0, n % 0x1_0000_0000);
    BigEndianJoined(high, low);
    hide Be32;
    hide BigEndian;
  }

  lemma BigEndianJoined(high: bytes, low: bytes)
    requires |low| == 4
    ensures BigEndian(high + low) == 0x1_0000_0000 * BigEndian(high) + BigEndian(low)
  {
    var b := high + low;
    var n := |high|;
    assert b[..n] == high;
    assert b[..n + 1] == high + low[..1] && b[..n + 1][..n] == high;
    assert b[..n + 2] == high + low[..2] && b[..n + 2][..n + 1] == b[..n + 1];
    assert b[..n + 3] == high + low[..3] && b[..n + 3][..n + 2] == b[..n + 2];
    assert b[..n + 4] == b && b[..|b| - 1] == b[..n + 3];
    BigEndian4(low);
    var l0: nat, l1: nat, l2: nat, l3: nat := low[0], low[1], low[2], low[3];
    assert BigEndian(b[..n + 1]) == 0x100 * BigEndian(high) + l0;
    assert BigEndian(b[..n + 2]) == 0x100 * BigEndian(b[..n + 1]) + l1;
    assert BigEndian(b[..n + 3]) == 0x100 * BigEndian(b[..n + 2]) + l2;
    assert BigEndian(b) == 0x100 * BigEndian(b[..n + 3]) + l3;
    assert FromBe32(low) == ((l0 * 0x100 + l1) * 0x100 + l2) * 0x100 + l3;
  }

  /** The bytes of a frame: the letters "CQF1", sender, flow and sequence in network byte order, payload. */
  lemma FrameSays(h: FrameHeader, payload: bytes)
    ensures var packet := EncodeFrame(h) + payload;
            && |packet| == 24 + |payload| && packet[..4] == [0x43, 0x51, 0x46, 0x31]
            && BigEndian(packet[4..12]) == h.sender && BigEndian(packet[12..20]) == h.flow
            && BigEndian(packet[20..24]) == h.sequence && packet[24..] == payload
  {
    var packet := EncodeFrame(h) + payload;
    assert packet[..4] == [0x43, 0x51, 0x46, 0x31];
    assert packet[4..12] == Be64(h.sender) && packet[12..20] == Be64(h.flow);
    assert packet[20..24] == Be32(h.sequence) && packet[24..] == payload;
    hide Be64;
    hide Be32;
    hide BigEndian;
    BigEndian8(h.sender);
    BigEndian8(h.flow);
    SpelledBigEndian(0, h.sequence);
  }

  function Framed(header: Option<FrameHeader>, payload: bytes): bytes {
    if header.None? then payload else EncodeFrame(header.value) + payload
  }

  /** An unframed packet comes back unless it starts like a frame. */
  lemma UnframedRoundTrip(payload: bytes)
    ensures FramePayload(payload) == payload
            <==> !(|payload| >= FRAME_LEN && payload[..4] == FRAME_MAGIC)
  {
  }

  method FrameOutbound(packet: PacketBuf, header: Option<FrameHeader>) returns (ok: bool)
    requires packet.Valid()
    modifies packet, packet.storage
    ensures packet.Valid() && packet.end == old(packet.end)
    ensures ok <==> header.None? || old(packet.start) >= FRAME_LEN
    ensures ok ==> packet.View() == Framed(header, old(packet.View()))
                   && packet.start == old(packet.start) - (if header.None? then 0 else FRAME_LEN)
  {
    hide EncodeFrame;
    if header.None? {
      return true;
    }
    if packet.start < FRAME_LEN {
      return false;
    }
    PushFront(packet, EncodeFrame(header.value));
    ok := true;
  }

  // ---------------------------------------------------------------- obfuscation in place

  method WrapPacket(cipher: Cipher, config: ObfsConfig, packet: PacketBuf,
                    counters: SenderCounters, d: Draws) returns (ok: bool)
    requires cipher.Lawful() && Drawable(config, d)
    requires packet.Valid() && counters.Valid()
    modifies packet, packet.storage, counters
    ensures packet.Valid() && counters.Valid()
    ensures counters.sent == old(counters.sent) + (if old(packet.start) == old(packet.end) then 0 else 1)
    ensures ok <==> old(packet.start) < old(packet.end) && old(packet.start) >= HEADER_LEN
                    && old(packet.end) + TailLength(config.mode, |d.padding|) <= PACKET_CAPACITY
    ensures if ok then
              && packet.start == old(packet.start) - HEADER_LEN
              && packet.end == old(packet.end) + TailLength(config.mode, |d.padding|)
              && packet.View() == Wire(cipher, config, old(packet.View()), d,
                                       Numbered(counters.initialSequence, old(counters.sent)),
                                       Numbered(counters.initialTransport, old(counters.sent)))
            else packet.start == old(packet.start) && packet.View() == old(packet.View())
  {
    if packet.start == packet.end {
      return false;
    }
    hide Numbered;
    hide Wire;
    var sequence, transport := counters.Next();
    var tail := TailLength(config.mode, |d.padding|);
    if packet.start < HEADER_LEN || packet.end + tail > PACKET_CAPACITY {
      return false;
    }
    WrapNumbered(cipher, config, packet, d, sequence, transport);
    ok := true;
  }

  /** Wraps under given numbers, where there is room. */
  method WrapNumbered(cipher: Cipher, config: ObfsConfig, packet: PacketBuf, d: Draws, sequence: u16,
                      transport: u16)
    requires cipher.Lawful() && Drawable(config, d)
    requires packet.Valid() && HEADER_LEN <= packet.start
    requires packet.end + TailLength(config.mode, |d.padding|) <= PACKET_CAPACITY
    modifies packet, packet.storage
    ensures packet.Valid() && packet.start == old(packet.start) - HEADER_LEN
    ensures packet.end == old(packet.end) + TailLength(config.mode, |d.padding|)
    ensures packet.View() == Wire(cipher, config, old(packet.View()), d, sequence, transport)
  {
    hide Wire;
    var payloadEnd := packet.end;
    var header := Header(config, d, sequence, transport);
    hide Header;
    MakeRoom(packet, header, TailLength(config.mode, |d.padding|));
    Cover(cipher, config, packet, header, payloadEnd, d, sequence, transport);
  }

  /** Writes the header before the payload and opens the tail behind it. */
  method MakeRoom(packet: PacketBuf, header: bytes, tail: nat)
    requires packet.Valid() && |header| <= packet.start && packet.end + tail <= PACKET_CAPACITY
    modifies packet, packet.storage
    ensures packet.Valid()
    ensures packet.start == old(packet.start) - |header| && packet.end == old(packet.end) + tail
    ensures packet.storage[packet.start..old(packet.start)] == header
    ensures packet.storage[old(packet.start)..old(packet.end)] == old(packet.View())
  {
    var payloadEnd := packet.end;
    var prepended := packet.Prepend(|header|);
    packet.Write(packet.start, packet.start, header, payloadEnd);
    var extended := packet.ExtendTail(tail);
    assert packet.storage[packet.start..packet.start] == [];
  }

  /** Encrypts, pads and tags what lies behind the header, in the way of the mode. */
  method Cover(cipher: Cipher, config: ObfsConfig, packet: PacketBuf, header: bytes,
               payloadEnd: nat, d: Draws, sequence: u16, transport: u16)
    requires cipher.Lawful() && Drawable(config, d)
    requires packet.Valid() && header == Header(config, d, sequence, transport)
    requires packet.start + HEADER_LEN <= payloadEnd
    requires packet.end == payloadEnd + TailLength(config.mode, |d.padding|)
    requires packet.storage[packet.start..packet.start + HEADER_LEN] == header
    modifies packet.storage
    ensures packet.View() == Wire(cipher, config, old(packet.storage[packet.start + HEADER_LEN..payloadEnd]),
                                  d, sequence, transport)
  {
    hide Wire;
    hide Header;
    if config.mode == Video {
      WriteVideo(cipher, config, packet, header, payloadEnd, d, sequence, transport);
    } else {
      WriteAudio(cipher, config, packet, header, payloadEnd, d, sequence, transport);
    }
  }

  /** Encrypts, pads and tags what lies behind the header. */
  method WriteVideo(cipher: Cipher, config: ObfsConfig, packet: PacketBuf, header: bytes,
                    payloadEnd: nat, d: Draws, sequence: u16, transport: u16)
    requires cipher.Lawful() && Drawable(config, d) && config.mode == Video
    requires packet.Valid() && header == Header(config, d, sequence, transport)
    requires packet.start + HEADER_LEN <= payloadEnd
    requires packet.end == payloadEnd + TailLength(Video, |d.padding|)
    requires packet.storage[packet.start..packet.start + HEADER_LEN] == header
    modifies packet.storage
    ensures packet.View() == Wire(cipher, config, old(packet.storage[packet.start + HEADER_LEN..payloadEnd]),
                                  d, sequence, transport)
  {
    hide Header;
    hide Iv;
    hide Keystreamed;
    var start, payloadStart := packet.start, packet.start + HEADER_LEN;
    var payload := packet.storage[payloadStart..payloadEnd];
    var text := Keystreamed(cipher, Iv(config.ssrc, sequence, d.timestamp), payload);
    ghost var covered := header + text + Trailer(d);
    assert Wire(cipher, config, payload, d, sequence, transport) == covered + cipher.mac(covered);
    hide Wire;
    packet.Write(start, payloadStart, text, payloadEnd);
    WriteTrailer(packet, start, payloadEnd, d);
    var tagStart := payloadEnd + |d.padding| + 1;
    assert packet.storage[start..tagStart] == covered;
    packet.Write(start, tagStart, cipher.mac(packet.storage[start..tagStart]), packet.end);
  }

  /** Writes the padding and its length octet at `at`. */
  method WriteTrailer(packet: PacketBuf, ghost from: nat, at: nat, d: Draws)
    requires packet.Valid() && |d.padding| < 255 && from <= at && at + |d.padding| + 1 <= packet.end
    modifies packet.storage
    ensures packet.storage[from..at + |d.padding| + 1] == old(packet.storage[from..at]) + Trailer(d)
  {
    packet.Write(from, at, d.padding, packet.end);
    packet.Write(from, at + |d.padding|, [|d.padding| + 1], packet.end);
  }

  /** Seals and pads what lies behind the header. */
  method WriteAudio(cipher: Cipher, config: ObfsConfig, packet: PacketBuf, header: bytes,
                    payloadEnd: nat, d: Draws, sequence: u16, transport: u16)
    requires cipher.Lawful() && Drawable(config, d) && config.mode == Audio
    requires packet.Valid() && header == Header(config, d, sequence, transport)
    requires packet.start + HEADER_LEN <= payloadEnd
    requires packet.end == payloadEnd + TailLength(Audio, |d.padding|)
    requires packet.storage[packet.start..packet.start + HEADER_LEN] == header
    modifies packet.storage
    ensures packet.View() == Wire(cipher, config, old(packet.storage[packet.start + HEADER_LEN..payloadEnd]),
                                  d, sequence, transport)
  {
    hide Header;
    hide Nonce;
    var start, payloadStart := packet.start, packet.start + HEADER_LEN;
    var payload := packet.storage[payloadStart..payloadEnd];
    var sealed := cipher.seal(Nonce(config.ssrc, sequence, d.timestamp), header, payload);
    assert Wire(cipher, config, payload, d, sequence, transport)
           == header + sealed.text + sealed.tag + Trailer(d);
    hide Wire;
    packet.Write(start, payloadStart, sealed.text, payloadEnd);
    packet.Write(start, payloadEnd, sealed.tag, packet.end);
    WriteTrailer(packet, start, payloadEnd + 16, d);
  }

  /** Reads the RTP header. */
  method ReadHeader(packet: PacketBuf) returns (r: Result<Parsed>)
    requires packet.Valid()
    ensures r == Parse(packet.View())
  {
    hide FromBe16;
    hide FromBe32;
    var len := packet.end - packet.start;
    if len < 13 {
      return Err;
    }
    var first := packet.Slice(0, 2);
    var payloadType := first[1] % 0x80;
    if first[0] / 0x40 != 2 || (payloadType != 111 && payloadType != 96 && payloadType != 6) {
      return Err;
    }
    var sequence := packet.Slice(2, 4);
    var timestamp := packet.Slice(4, 8);
    var ssrc := packet.Slice(8, 12);
    var headerLen := 12;
    if first[0] / 0x10 % 2 == 1 {
      if len < 16 {
        return Err;
      }
      var words := packet.Slice(14, 16);
      headerLen := headerLen + 4 + FromBe16(words) * 4;
    }
    if len < headerLen {
      return Err;
    }
    r := Ok(Parsed(payloadType, FromBe16(sequence), FromBe32(timestamp), FromBe32(ssrc), headerLen,
                   first[0] / 0x20 % 2 == 1));
  }

  /** Where the payload ends before `end`. */
  method FindEnd(packet: PacketBuf, p: Parsed, end: nat) returns (r: Result<nat>)
    requires packet.Valid() && 12 <= p.headerLen <= end <= packet.end - packet.start
    ensures r == Unpadded(packet.View(), p, end)
  {
    if !p.padded {
      return Ok(end);
    }
    var last := packet.Slice(end - 1, end);
    var padding: nat := last[0];
    if padding == 0 || padding > end - p.headerLen {
      return Err;
    }
    r := Ok(end - padding);
  }

  /** Replaces part of the packet by its plaintext and narrows the range to it. */
  method Uncover(packet: PacketBuf, from: nat, to: nat, plain: bytes)
    requires packet.Valid() && from <= to <= packet.end - packet.start && |plain| == to - from
    modifies packet, packet.storage
    ensures packet.Valid() && packet.View() == plain
    ensures packet.start == old(packet.start) + from && packet.end == old(packet.start) + to
  {
    var start := packet.start;
    packet.Write(start + from, start + from, plain, start + to);
    var done := packet.SetRange(start + from, start + to);
  }

  /** Checks the tag, decrypts in place and narrows the range to the payload. */
  method OpenVideoInPlace(cipher: Cipher, packet: PacketBuf, p: Parsed) returns (done: bool)
    requires cipher.Lawful() && packet.Valid()
    requires 12 <= p.headerLen <= packet.end - packet.start
    modifies packet, packet.storage
    ensures packet.Valid()
    ensures match OpenVideo(cipher, old(packet.View()), p)
            case Err => !done && packet.start == old(packet.start) && packet.end == old(packet.end)
            case Ok(o) => done && packet.View() == o.payload
                          && packet.start == old(packet.start) + o.from
                          && packet.end == old(packet.start) + o.to
  {
    hide Iv;
    hide Unpadded;
    hide Keystreamed;
    var len := packet.end - packet.start;
    if len < p.headerLen + 10 {
      return false;
    }
    var covered := packet.Slice(0, len - 10);
    var tag := packet.Slice(len - 10, len);
    ghost var wire := packet.View();
    assert wire[..len - 10] == covered && wire[len - 10..] == tag;
    if cipher.mac(covered) != tag {
      return false;
    }
    var end := FindEnd(packet, p, len - 10);
    if end.Err? {
      return false;
    }
    var text := packet.Slice(p.headerLen, end.value);
    var plain := Keystreamed(cipher, Iv(p.ssrc, p.sequence, p.timestamp), text);
    Uncover(packet, p.headerLen, end.value, plain);
    done := true;
  }

  /** Opens the sealed payload in place and narrows the range to it. */
  method OpenAudioInPlace(cipher: Cipher, packet: PacketBuf, p: Parsed) returns (done: bool)
    requires cipher.Lawful() && packet.Valid()
    requires 12 <= p.headerLen <= packet.end - packet.start
    modifies packet, packet.storage
    ensures packet.Valid()
    ensures match OpenAudio(cipher, old(packet.View()), p)
            case Err => !done && packet.start == old(packet.start) && packet.end == old(packet.end)
            case Ok(o) => done && packet.View() == o.payload
                          && packet.start == old(packet.start) + o.from
                          && packet.end == old(packet.start) + o.to
  {
    hide Nonce;
    hide Unpadded;
    if p.payloadType != 111 {
      return false;
    }
    var end := FindEnd(packet, p, packet.end - packet.start);
    if end.Err? || end.value <= p.headerLen + 16 {
      return false;
    }
    var aad := packet.Slice(0, p.headerLen);
    assert packet.View()[..p.headerLen] == aad;
    var text := packet.Slice(p.headerLen, end.value - 16);
    var tag := packet.Slice(end.value - 16, end.value);
    var plain := cipher.open(Nonce(p.ssrc, p.sequence, p.timestamp), aad, text, tag);
    if plain.None? {
      return false;
    }
    Uncover(packet, p.headerLen, end.value - 16, plain.value);
    done := true;
  }

  /** Opens a packet in place: on success the range is the payload, otherwise it stays. */
  method UnwrapPacket(cipher: Cipher, packet: PacketBuf, mode: Mode)
      returns (sequence: Option<u16>)
    requires cipher.Lawful() && packet.Valid()
    modifies packet, packet.storage
    ensures packet.Valid()
    ensures match Unwrap(cipher, old(packet.View()), mode)
            case Err => sequence.None? && packet.start == old(packet.start) && packet.end == old(packet.end)
            case Ok(o) => sequence == Some(o.sequence) && packet.View() == o.payload
                          && packet.start == old(packet.start) + o.from
                          && packet.end == old(packet.start) + o.to
  {
    var header := ReadHeader(packet);
    if header.Err? {
      return None;
    }
    OpenedSequence(cipher, packet.View(), header.value);
    hide Parse;
    hide OpenVideo;
    hide OpenAudio;
    var done: bool;
    if mode == Video {
      done := OpenVideoInPlace(cipher, packet, header.value);
    } else {
      done := OpenAudioInPlace(cipher, packet, header.value);
    }
    sequence := if done then Some(header.value.sequence) else None;
  }

  lemma OpenedSequence(cipher: Cipher, wire: bytes, p: Parsed)
    requires 12 <= p.headerLen <= |wire|
    ensures OpenVideo(cipher, wire, p).Ok? ==> OpenVideo(cipher, wire, p).value.sequence == p.sequence
    ensures OpenAudio(cipher, wire, p).Ok? ==> OpenAudio(cipher, wire, p).value.sequence == p.sequence
  {
    hide Nonce;
    hide Keystreamed;
  }

  // ---------------------------------------------------------------- ChannelData

  predicate IsChannel(channel: u16) {
    0x4000 <= channel <= 0x7fff
  }

  function ChannelPadding(n: nat): (p: nat)
    ensures p <= 3 && (n + p) % 4 == 0
  {
    (4 - n % 4) % 4
  }

  function ChannelData(channel: u16, payload: bytes): bytes
    requires |payload| <= 0xffff
  {
    Be16(channel) + Be16(|payload|) + payload + Zeros(ChannelPadding(|payload|))
  }

  /** The channel and the payload length of a ChannelData message. */
  function ChannelHeader(wire: bytes): Option<(u16, nat)> {
    if |wire| < 4 || wire[0] / 0x40 != 1 then None
    else
      var channel, n := FromBe16(wire[..2]), FromBe16(wire[2..4]);
      if !IsChannel(channel) || n > |wire| - 4 || |wire| - 4 - n > 3 then None else Some((channel, n))
  }

  /** Exactly the messages of a channel number, the length of a payload, that payload and at most three
      further bytes, whatever these are, are recognised. */
  lemma ChannelHeaderExactly(wire: bytes, channel: u16, payload: bytes)
    requires |payload| <= 0xffff && IsChannel(channel)
    ensures ChannelHeader(wire) == Some((channel, |payload|)) && wire[4..][..|payload|] == payload
            <==> var prefix := Be16(channel) + Be16(|payload|) + payload;
                 prefix <= wire && |wire| <= |prefix| + 3
  {
    var prefix := Be16(channel) + Be16(|payload|) + payload;
    if ChannelHeader(wire) == Some((channel, |payload|)) && wire[4..][..|payload|] == payload {
      assert wire[..2] == Be16(channel) && wire[2..4] == Be16(|payload|);
      assert wire[4..4 + |payload|] == payload;
      assert wire[..4 + |payload|] == wire[..2] + wire[2..4] + wire[4..4 + |payload|];
    }
    if prefix <= wire && |wire| <= |prefix| + 3 {
      assert wire == prefix + wire[|prefix|..];
      assert wire[..2] == Be16(channel) && wire[2..4] == Be16(|payload|);
      assert wire[4..4 + |payload|] == payload;
      assert wire[0] == channel / 0x100;
    }
  }

  lemma ChannelRoundTrip(channel: u16, payload: bytes)
    requires |payload| <= 0xffff && IsChannel(channel)
    ensures ChannelHeader(ChannelData(channel, payload)) == Some((channel, |payload|))
    ensures ChannelData(channel, payload)[4..][..|payload|] == payload
  {
    ChannelHeaderExactly(ChannelData(channel, payload), channel, payload);
  }

  method EncodeChannelData(packet: PacketBuf, channel: u16) returns (ok: bool)
    requires packet.Valid()
    modifies packet, packet.storage
    ensures packet.Valid()
    ensures ok <==> IsChannel(channel) && 4 <= old(packet.start)
                    && old(packet.end) + ChannelPadding(old(packet.end - packet.start)) <= PACKET_CAPACITY
    ensures if ok then packet.View() == ChannelData(channel, old(packet.View()))
                       && packet.start == old(packet.start) - 4
            else packet.start == old(packet.start) && packet.View() == old(packet.View())
  {
    var n := packet.end - packet.start;
    var padding := ChannelPadding(n);
    if !IsChannel(channel) || n > 0xffff || packet.start < 4 || packet.end + padding > PACKET_CAPACITY {
      return false;
    }
    ghost var payload := packet.View();
    var payloadStart, payloadEnd := packet.start, packet.end;
    var header, zeros := Be16(channel) + Be16(n), Zeros(padding);
    assert ChannelData(channel, payload) == header + (payload + zeros);
    hide ChannelData;
    hide ChannelPadding;
    hide Zeros;
    hide Be16;
    ok := packet.ExtendTail(padding);
    packet.Write(payloadStart, payloadEnd, zeros, packet.end);
    assert packet.View() == payload + zeros;
    PushFront(packet, header);
  }

  /** Writes bytes before the packet. */
  method PushFront(packet: PacketBuf, prefix: bytes)
    requires packet.Valid() && |prefix| <= packet.start
    modifies packet, packet.storage
    ensures packet.Valid() && packet.end == old(packet.end) && packet.start == old(packet.start) - |prefix|
    ensures packet.View() == prefix + old(packet.View())
  {
    ghost var from := packet.start;
    var ok := packet.Prepend(|prefix|);
    packet.Write(packet.start, packet.start, prefix, packet.end);
    assert packet.View() == packet.storage[packet.start..from] + packet.storage[from..packet.end];
  }

  /** Takes the ChannelData framing off in place. */
  method DecodeChannelData(packet: PacketBuf) returns (channel: Option<u16>)
    requires packet.Valid()
    modifies packet
    ensures packet.Valid()
    ensures match ChannelHeader(old(packet.View()))
            case None => channel.None? && packet.View() == old(packet.View())
            case Some((c, n)) => channel == Some(c) && packet.View() == old(packet.View())[4..][..n]
  {
    var wire := packet.storage[packet.start..packet.end];
    var header := ChannelHeader(wire);
    if header.None? {
      return None;
    }
    var trimmed := packet.TrimFront(4);
    var cut := packet.Truncate(header.value.1);
    channel := Some(header.value.0);
  }

  // ---------------------------------------------------------------- the whole path

  /** What leaves for the relay for one packet. */
  function Sent(cipher: Cipher, config: ObfsConfig, header: Option<FrameHeader>, payload: bytes, d: Draws,
                sequence: u16, transport: u16): bytes
    requires Drawable(config, d)
  {
    Wire(cipher, config, Framed(header, payload), d, sequence, transport)
  }

  /** What is taken from a datagram of the relay: channel, sequence number, payload. */
  function Received(cipher: Cipher, mode: Mode, datagram: bytes): Option<(u16, u16, bytes)> {
    match ChannelHeader(datagram)
    case None => None
    case Some((channel, n)) =>
      match Unwrap(cipher, datagram[4..][..n], mode)
      case Err => None
      case Ok(o) => Some((channel, o.sequence, FramePayload(o.payload)))
  }

  /** Framing, wrapping and ChannelData are undone byte for byte, in both modes and for every padding
      draw; an unframed packet must not look like a frame, and this is the only exception. */
  lemma EndToEnd(cipher: Cipher, config: ObfsConfig, header: Option<FrameHeader>, payload: bytes,
                 d: Draws, sequence: u16, transport: u16, channel: u16)
    requires cipher.Lawful() && Drawable(config, d) && IsChannel(channel)
    requires Framed(header, payload) != []
    requires |Sent(cipher, config, header, payload, d, sequence, transport)| <= 0xffff
    ensures var datagram := ChannelData(channel, Sent(cipher, config, header, payload, d, sequence, transport));
            Received(cipher, config.mode, datagram) == Some((channel, sequence, payload))
            <==> header.Some? || !(|payload| >= FRAME_LEN && payload[..4] == FRAME_MAGIC)
  {
    var framed := Framed(header, payload);
    var wire := Wire(cipher, config, framed, d, sequence, transport);
    UnwrapWire(cipher, config, framed, d, sequence, transport);
    ChannelRoundTrip(channel, wire);
    hide Wire;
    hide Unwrap;
    hide ChannelData;
    hide ChannelHeader;
    if header.Some? {
      FrameRoundTrip(header.value, payload);
      hide EncodeFrame;
      hide DecodeFrame;
    } else {
      UnframedRoundTrip(payload);
      hide DecodeFrame;
    }
  }

  /** Padding to a multiple of four never passes the end of the buffer. */
  lemma PaddingFits(start: nat, end: nat)
    requires start <= end <= PACKET_CAPACITY && start % 4 == 0
    ensures end + ChannelPadding(end - start) <= PACKET_CAPACITY
  {
  }

  /** Frame and obfuscation in one buffer: both headers fit the headroom, so only an empty packet or a
      tail that passes the end is refused. */
  method FrameAndWrap(cipher: Cipher, config: ObfsConfig, packet: PacketBuf, header: Option<FrameHeader>,
                      counters: SenderCounters, d: Draws) returns (ok: bool)
    requires cipher.Lawful() && Drawable(config, d)
    requires packet.Valid() && counters.Valid() && packet.start == PACKET_HEADROOM
    modifies packet, packet.storage, counters
    ensures packet.Valid() && counters.Valid()
    ensures ok <==> && (header.Some? || old(packet.end) > PACKET_HEADROOM)
                    && old(packet.end) + TailLength(config.mode, |d.padding|) <= PACKET_CAPACITY
    ensures ok ==>
      && packet.View() == Sent(cipher, config, header, old(packet.View()), d,
                               Numbered(counters.initialSequence, old(counters.sent)),
                               Numbered(counters.initialTransport, old(counters.sent)))
      && counters.sent == old(counters.sent) + 1
      && packet.start == PACKET_HEADROOM - HEADER_LEN - (if header.None? then 0 else FRAME_LEN)
  {
    hide Wire;
    hide EncodeFrame;
    hide TailLength;
    hide Numbered;
    ghost var framed := Framed(header, packet.View());
    ok := FrameOutbound(packet, header);
    assert packet.View() == framed;
    hide Framed;
    ok := WrapPacket(cipher, config, packet, counters, d);
  }

  /** The whole outbound path in one buffer. A packet read into the buffer passes exactly when it is not
      empty, the channel is one, and packet and tail together keep within 2240 bytes: the three headers
      always fit the headroom. */
  method SendPacket(cipher: Cipher, config: ObfsConfig, packet: PacketBuf, header: Option<FrameHeader>,
                    counters: SenderCounters, d: Draws, channel: u16) returns (ok: bool)
    requires cipher.Lawful() && Drawable(config, d)
    requires packet.Valid() && counters.Valid() && packet.start == PACKET_HEADROOM
    modifies packet, packet.storage, counters
    ensures packet.Valid() && counters.Valid()
    ensures ok <==>
      && IsChannel(channel) && (header.Some? || old(packet.end) > PACKET_HEADROOM)
      && old(packet.end) - PACKET_HEADROOM + TailLength(config.mode, |d.padding|)
         <= PACKET_CAPACITY - PACKET_HEADROOM
    ensures ok ==>
      var wire := Sent(cipher, config, header, old(packet.View()), d,
                       Numbered(counters.initialSequence, old(counters.sent)),
                       Numbered(counters.initialTransport, old(counters.sent)));
      && |wire| <= 0xffff && packet.View() == ChannelData(channel, wire)
      && counters.sent == old(counters.sent) + 1
  {
    hide Sent;
    hide ChannelData;
    hide ChannelPadding;
    hide TailLength;
    hide Numbered;
    ok := FrameAndWrap(cipher, config, packet, header, counters, d);
    if !ok {
      return;
    }
    PaddingFits(packet.start, packet.end);
    ok := EncodeChannelData(packet, channel);
  }

  /** Whatever is drawn, a packet this short passes; in video mode, the longest tail, this leaves 2170
      bytes, in audio mode 2200. */
  lemma EveryDrawFits(config: ObfsConfig, n: nat)
    ensures (forall d | Drawable(config, d) ::
               n + TailLength(config.mode, |d.padding|) <= PACKET_CAPACITY - PACKET_HEADROOM)
            <==> n <= if config.mode == Video then 2170 else 2200
  {
    var longest := Draws(Zeros(config.PaddingMax() - 1), false, 0, 0);
    assert Drawable(config, longest);
  }

  /** The whole inbound path in one buffer; what does not authenticate hands on nothing. */
  method ReceivePacket(cipher: Cipher, mode: Mode, packet: PacketBuf)
      returns (received: Option<(u16, u16)>)
    requires cipher.Lawful() && packet.Valid()
    modifies packet, packet.storage
    ensures packet.Valid()
    ensures match Received(cipher, mode, old(packet.View()))
            case None => received.None?
            case Some((channel, sequence, payload)) =>
              received == Some((channel, sequence)) && packet.View() == payload
  {
    hide ChannelHeader;
    hide Unwrap;
    var channel := DecodeChannelData(packet);
    if channel.None? {
      return None;
    }
    var sequence := UnwrapPacket(cipher, packet, mode);
    if sequence.None? {
      return None;
    }
    var inside := packet.storage[packet.start..packet.end];
    var frame := DecodeFrame(inside);
    if frame.Some? {
      var trimmed := packet.TrimFront(FRAME_LEN);
    }
    received := Some((channel.value, sequence.value));
  }

  /** One wire packet at the replay window: what the window becomes, and the payload if it is let
      through. */
  function Authenticate(cipher: Cipher, mode: Mode, m: Model, wire: bytes): (Model, Option<bytes>) {
    match Unwrap(cipher, wire, mode)
    case Err => (m, None)
    case Ok(o) =>
      var v := JudgeRtp(m, o.sequence);
      (v.model, if v.accepted then Some(o.payload) else None)
  }

  /** A packet is let through exactly when it authenticates and its number is new; a packet that does
      not authenticate leaves the window as it was. */
  method AuthenticateInbound(cipher: Cipher, mode: Mode, receiver: Receiver, packet: PacketBuf)
      returns (ok: bool)
    requires cipher.Lawful() && packet.Valid() && receiver.Valid()
    requires packet.storage as object != receiver.window.seen as object
    modifies packet, packet.storage, receiver.window, receiver.window.seen
    ensures packet.Valid() && receiver.Valid()
    ensures match Unwrap(cipher, old(packet.View()), mode)
            case Err => !ok && receiver.window.View() == old(receiver.window.View())
            case Ok(o) =>
              && Verdict(receiver.window.View(), ok) == JudgeRtp(old(receiver.window.View()), o.sequence)
              && packet.View() == o.payload
    ensures (receiver.window.View(), if ok then Some(packet.View()) else None)
            == Authenticate(cipher, mode, old(receiver.window.View()), old(packet.View()))
  {
    hide Unwrap;
    hide Window.Valid;
    var sequence := UnwrapPacket(cipher, packet, mode);
    if sequence.None? {
      return false;
    }
    ok := receiver.AcceptRtp(sequence.value);
  }
}
