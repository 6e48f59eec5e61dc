/** TURN over TCP: cutting the byte stream into STUN messages and ChannelData frames. */
module TcpReframing {
  import opened Bytes
  import opened Packets
  import opened Addresses

  const MAX_CONTROL_FRAME_BYTES: nat := 4096
  const MAX_DATA_FRAME_BYTES: nat := PACKET_CAPACITY - PACKET_HEADROOM
  const STREAM_READ_BUFFER_BYTES: nat := MAX_CONTROL_FRAME_BYTES

  datatype StreamError =
    | UnalignedControl | ControlTooLong | BadCookie | ReservedType | DataTooLong
    | HardLimit | ReadLength | Closed

  /** What the first bytes say: not enough of them, the whole length of the frame, or an error. */
  datatype Start = Unknown | ControlStart(length: nat) | DataStart(length: nat) | Bad(error: StreamError)

  function FrameStart(buffer: bytes): Start {
    if |buffer| < 4 then Unknown
    else
      var declared := FromBe16(buffer[2..4]);
      if buffer[0] / 0x40 == 0 then
        if declared % 4 != 0 then Bad(UnalignedControl)
        else if 20 + declared > MAX_CONTROL_FRAME_BYTES then Bad(ControlTooLong)
        else if |buffer| < 8 then Unknown
        else if buffer[4..8] != COOKIE_BYTES then Bad(BadCookie)
        else ControlStart(20 + declared)
      else if buffer[0] / 0x40 != 1 then Bad(ReservedType)
      else
        var length := 4 + declared + (4 - declared % 4) % 4;
        if length > MAX_DATA_FRAME_BYTES then Bad(DataTooLong) else DataStart(length)
  }

  datatype Frame = Control(wire: bytes) | Data(wire: bytes)

  /** One decoding attempt on the bytes at hand. */
  datatype Step = NeedMore | Got(frame: Frame, rest: bytes) | Fail(error: StreamError)

  function Decode(buffer: bytes): Step {
    match FrameStart(buffer)
    case Unknown => NeedMore
    case Bad(error) => Fail(error)
    case ControlStart(n) => if |buffer| < n then NeedMore else Got(Control(buffer[..n]), buffer[n..])
    case DataStart(n) => if |buffer| < n then NeedMore else Got(Data(buffer[..n]), buffer[n..])
  }

  /** What the stream says as a whole: its frames, what is left behind them, and how it ends. */
  datatype Parsed = Parsed(frames: seq<Frame>, rest: bytes, error: StreamError)

  function Parse(stream: bytes): Parsed
    decreases |stream|
  {
    match Decode(stream)
    case NeedMore => Parsed([], stream, Closed)
    case Fail(error) => Parsed([], stream, error)
    case Got(frame, rest) =>
      DecodeBounds(stream);
      var tail := Parse(rest);
      Parsed([frame] + tail.frames, tail.rest, tail.error)
  }

  // ---------------------------------------------------------------- bounds and stability

  lemma StartBounds(buffer: bytes)
    ensures match FrameStart(buffer)
            case Unknown => |buffer| < 8
            case ControlStart(n) => 20 <= n <= MAX_CONTROL_FRAME_BYTES
            case DataStart(n) => 4 <= n <= MAX_DATA_FRAME_BYTES
            case Bad(error) => error != HardLimit && error != ReadLength && error != Closed
  {
  }

  /** An incomplete frame is shorter than the buffer limit, a data frame fits a packet buffer, and
      decoding makes progress. */
  lemma DecodeBounds(buffer: bytes)
    ensures match Decode(buffer)
            case NeedMore => |buffer| < STREAM_READ_BUFFER_BYTES
            case Got(frame, rest) =>
              && frame.wire + rest == buffer && frame.wire != []
              && (frame.Data? ==> |frame.wire| <= PACKET_CAPACITY - PACKET_HEADROOM)
            case Fail(error) => error != HardLimit && error != ReadLength && error != Closed
  {
    StartBounds(buffer);
    hide FrameStart;
  }

  lemma StartStable(buffer: bytes, more: bytes)
    requires FrameStart(buffer) != Unknown
    ensures FrameStart(buffer + more) == FrameStart(buffer)
  {
    assert (buffer + more)[2..4] == buffer[2..4];
    if |buffer| >= 8 {
      assert (buffer + more)[4..8] == buffer[4..8];
    }
  }

  /** What has been decoded does not change when more bytes arrive. */
  lemma DecodeStable(buffer: bytes, more: bytes)
    ensures match Decode(buffer)
            case NeedMore => true
            case Got(frame, rest) => Decode(buffer + more) == Got(frame, rest + more)
            case Fail(error) => Decode(buffer + more) == Fail(error)
  {
    if Decode(buffer) != NeedMore {
      StartStable(buffer, more);
      StartBounds(buffer);
      hide FrameStart;
      var n := match FrameStart(buffer) case ControlStart(n) => n case DataStart(n) => n case _ => 0;
      assert n <= |buffer| ==> (buffer + more)[..n] == buffer[..n];
      assert n <= |buffer| ==> (buffer + more)[n..] == buffer[n..] + more;
    }
  }

  /** The frame alone decides what was decoded. */
  lemma DecodedLength(stream: bytes)
    ensures match Decode(stream)
            case Got(frame, rest) => FrameStart(stream) == StartOf(frame)
                                     && FrameStart(frame.wire) == StartOf(frame)
            case _ => true
  {
    StartBounds(stream);
    match FrameStart(stream)
    case Unknown =>
    case Bad(_) =>
    case ControlStart(n) =>
      if n <= |stream| {
        assert stream[..n][2..4] == stream[2..4] && stream[..n][4..8] == stream[4..8];
      }
    case DataStart(n) =>
      if n <= |stream| {
        assert stream[..n][2..4] == stream[2..4];
      }
  }

  // ---------------------------------------------------------------- well-formed frames

  /** A frame as its sender must write it. */
  predicate WellFormed(frame: Frame) {
    && |frame.wire| >= 4
    && var declared := FromBe16(frame.wire[2..4]);
       match frame
       case Control(wire) =>
         && wire[0] < 0x40 && |wire| == 20 + declared <= MAX_CONTROL_FRAME_BYTES
         && declared % 4 == 0 && wire[4..8] == COOKIE_BYTES
       case Data(wire) =>
         && 0x40 <= wire[0] < 0x80 && 4 + declared <= |wire| < 4 + declared + 4
         && |wire| % 4 == 0 && |wire| <= MAX_DATA_FRAME_BYTES
  }

  function StartOf(frame: Frame): Start {
    if frame.Control? then ControlStart(|frame.wire|) else DataStart(|frame.wire|)
  }

  lemma WellFormedStart(frame: Frame)
    ensures WellFormed(frame) <==> FrameStart(frame.wire) == StartOf(frame)
  {
  }

  /** The decoder finds a frame at the front exactly when one is there. */
  lemma DecodeExactly(frame: Frame, rest: bytes)
    ensures WellFormed(frame) <==> Decode(frame.wire + rest) == Got(frame, rest)
  {
    var stream := frame.wire + rest;
    WellFormedStart(frame);
    assert |frame.wire| < 4 ==> !WellFormed(frame);
    hide WellFormed;
    if FrameStart(frame.wire) != Unknown {
      StartStable(frame.wire, rest);
    }
    hide FrameStart;
    assert stream[..|frame.wire|] == frame.wire && stream[|frame.wire|..] == rest;
    if Decode(stream) == Got(frame, rest) {
      DecodedLength(stream);
    }
  }

  /** A frame that the bytes at hand may still become: it is longer, and agrees with them as far as they
      decide it, type and length from four bytes on and the cookie from eight. */
  predicate MayBecome(buffer: bytes, frame: Frame) {
    && WellFormed(frame) && |buffer| < |frame.wire|
    && (|buffer| >= 4 ==> frame.wire[..4] == buffer[..4])
    && (|buffer| >= 8 && frame.Control? ==> buffer[4..8] == COOKIE_BYTES)
  }

  /** More bytes are awaited exactly when the ones at hand may still become a frame; the decoder fails
      exactly when they neither begin with one nor can. */
  lemma NeedMoreExactly(buffer: bytes)
    ensures Decode(buffer) == NeedMore <==> exists frame :: MayBecome(buffer, frame)
  {
    if Decode(buffer) == NeedMore {
      var frame := Completion(buffer);
      assert MayBecome(buffer, frame);
    }
    if frame :| MayBecome(buffer, frame) {
      Awaited(buffer, frame);
    }
  }

  lemma Awaited(buffer: bytes, frame: Frame)
    requires MayBecome(buffer, frame)
    ensures Decode(buffer) == NeedMore
  {
    if |buffer| >= 4 {
      assert frame.wire[2..4] == frame.wire[..4][2..4] == buffer[..4][2..4] == buffer[2..4];
      assert frame.wire[0] == frame.wire[..4][0] == buffer[..4][0] == buffer[0];
    }
  }

  /** A frame that completes the bytes at hand. */
  lemma Completion(buffer: bytes) returns (frame: Frame)
    requires Decode(buffer) == NeedMore
    ensures MayBecome(buffer, frame)
  {
    if |buffer| < 4 {
      var zeros := Zeros(12);
      var wire := [0, 0, 0, 0] + COOKIE_BYTES + zeros;
      assert wire[2..4] == [0, 0] && wire[4..8] == COOKIE_BYTES;
      frame := Control(wire);
    } else {
      var declared: nat := FromBe16(buffer[2..4]);
      if buffer[0] / 0x40 == 0 {
        var wire := buffer[..4] + COOKIE_BYTES + Zeros(12 + declared);
        assert wire[2..4] == buffer[2..4] && wire[4..8] == COOKIE_BYTES && wire[..4] == buffer[..4];
        frame := Control(wire);
      } else {
        var wire := buffer[..4] + Zeros(declared + (4 - declared % 4) % 4);
        assert wire[2..4] == buffer[2..4] && wire[..4] == buffer[..4];
        frame := Data(wire);
      }
    }
  }

  ghost predicate AllWellFormed(frames: seq<Frame>) {
    forall i :: 0 <= i < |frames| ==> WellFormed(frames[i])
  }

  function Wires(frames: seq<Frame>): bytes {
    if frames == [] then [] else frames[0].wire + Wires(frames[1..])
  }

  lemma ParseGot(stream: bytes, frame: Frame, rest: bytes)
    requires Decode(stream) == Got(frame, rest)
    ensures |rest| < |stream|
    ensures var tail := Parse(rest);
            Parse(stream) == Parsed([frame] + tail.frames, tail.rest, tail.error)
  {
    DecodeBounds(stream);
    hide Decode;
  }

  lemma StopsHere(stream: bytes)
    requires !Decode(stream).Got?
    ensures Parse(stream)
            == Parsed([], stream, if Decode(stream) == NeedMore then Closed else Decode(stream).error)
  {
    hide Decode;
  }

  /** Frames written one after the other come back exactly, and what follows them is parsed as if it
      stood alone. */
  lemma {:induction false} FramesComeBack(frames: seq<Frame>, tail: bytes)
    requires AllWellFormed(frames)
    ensures var p := Parse(tail);
            Parse(Wires(frames) + tail) == Parsed(frames + p.frames, p.rest, p.error)
    decreases |frames|
  {
    hide Decode;
    hide Parse;
    hide WellFormed;
    if frames == [] {
      assert Wires(frames) + tail == tail;
    } else {
      var rest := Wires(frames[1..]) + tail;
      assert Wires(frames) + tail == frames[0].wire + rest;
      DecodeExactly(frames[0], rest);
      FramesComeBack(frames[1..], tail);
      ParseGot(frames[0].wire + rest, frames[0], rest);
      assert frames == [frames[0]] + frames[1..];
    }
  }

  ghost predicate Faithful(stream: bytes, p: Parsed) {
    && AllWellFormed(p.frames) && stream == Wires(p.frames) + p.rest
    && Decode(p.rest) == (if p.error == Closed then NeedMore else Fail(p.error))
    && p.error != HardLimit && p.error != ReadLength
  }

  /** Conversely every stream is the frames parsed from it, all well formed, and a rest at which the
      decoder stops: nothing is lost, added or reordered. */
  lemma {:induction false} ParseIsFaithful(stream: bytes)
    ensures Faithful(stream, Parse(stream))
    decreases |stream|
  {
    DecodeBounds(stream);
    match Decode(stream)
    case NeedMore => assert [] + stream == stream;
    case Fail(_) => assert [] + stream == stream;
    case Got(frame, rest) =>
      ParseIsFaithful(rest);
      ParseGot(stream, frame, rest);
      DecodeExactly(frame, rest);
      FaithfulStep(frame, rest, Parse(rest));
  }

  lemma FaithfulStep(frame: Frame, rest: bytes, p: Parsed)
    requires WellFormed(frame) && Faithful(rest, p)
    ensures Faithful(frame.wire + rest, Parsed([frame] + p.frames, p.rest, p.error))
  {
    hide WellFormed;
    hide Decode;
    var frames := [frame] + p.frames;
    assert frames[1..] == p.frames;
    assert frame.wire + rest == Wires(frames) + p.rest;
  }

  // ---------------------------------------------------------------- the reader

  function Concat(chunks: seq<bytes>): bytes {
    if chunks == [] then [] else chunks[0] + Concat(chunks[1..])
  }

  ghost predicate NonEmpty(chunks: seq<bytes>) {
    forall i :: 0 <= i < |chunks| ==> chunks[i] != []
  }

  /** A frame as handed to the caller; a data frame is dropped when no packet buffer is free. */
  datatype Delivery = ControlFrame(wire: bytes) | DataFrame(packet: PacketBuf) | DataDropped

  /** A frame as the caller sees it. */
  datatype Seen = Whole(frame: Frame) | Lost

  function Thin(frame: Frame, free: bool): Seen {
    if frame.Data? && !free then Lost else Whole(frame)
  }

  function ThinAll(frames: seq<Frame>, free: nat -> bool): seq<Seen> {
    seq(|frames|, i requires 0 <= i < |frames| => Thin(frames[i], free(i)))
  }

  lemma ThinMore(frames: seq<Frame>, frame: Frame, free: nat -> bool)
    ensures |ThinAll(frames, free)| == |frames|
    ensures ThinAll(frames + [frame], free) == ThinAll(frames, free) + [Thin(frame, free(|frames|))]
  {
  }

  class StreamReader {
    /** What the connection will deliver, one read at a time, before its end. */
    var input: seq<bytes>
    var buffer: bytes

    ghost predicate Valid()
      reads this
    {
      NonEmpty(input)
    }

    /** All bytes not yet handed on, however the reads cut them. */
    ghost function Remaining(): bytes
      reads this
    {
      buffer + Concat(input)
    }

    constructor (input: seq<bytes>)
      requires NonEmpty(input)
      ensures Valid() && Remaining() == Concat(input)
    {
      this.input, buffer := input, [];
    }

    /** The next frame depends on the remaining bytes alone. */
    method ReadFrame(free: bool) returns (r: Result<Delivery>, error: StreamError)
      requires Valid()
      modifies this
      ensures Valid()
      ensures r.Ok? && r.value.DataFrame? ==> fresh(r.value.packet) && fresh(r.value.packet.storage)
      ensures match Decode(old(Remaining()))
              case NeedMore => r.Err? && error == Closed && Remaining() == old(Remaining())
              case Fail(e) => r.Err? && error == e && Remaining() == old(Remaining())
              case Got(frame, rest) =>
                && r.Ok? && Remaining() == rest
                && match r.value
                   case ControlFrame(wire) => frame == Control(wire)
                   case DataFrame(packet) =>
                     free && packet.Valid() && packet.start == PACKET_HEADROOM
                     && frame == Data(packet.View())
                   case DataDropped => !free && frame.Data?
    {
      error := Closed;
      while true
        invariant NonEmpty(input) && Remaining() == old(Remaining())
        decreases |input|
      {
        var step := Decode(buffer);
        DecodeBounds(buffer);
        DecodeStable(buffer, Concat(input));
        hide Decode;
        match step {
          case Fail(e) =>
            error := e;
            return Err, e;
          case Got(frame, rest) =>
            buffer := rest;
            if frame.Control? {
              return Ok(ControlFrame(frame.wire)), error;
            }
            if !free {
              return Ok(DataDropped), error;
            }
            var packet := CopyFrame(frame.wire);
            return Ok(DataFrame(packet)), error;
          case NeedMore =>
        }
        if |buffer| >= STREAM_READ_BUFFER_BYTES {
          return Err, HardLimit;
        }
        if input == [] {
          assert Remaining() == buffer;
          return Err, Closed;
        }
        assert buffer + Concat(input) == (buffer + input[0]) + Concat(input[1..]);
        buffer := buffer + input[0];
        input := input[1..];
      }
    }

    method CopyFrame(wire: bytes) returns (packet: PacketBuf)
      requires |wire| <= PACKET_CAPACITY - PACKET_HEADROOM
      ensures fresh(packet) && fresh(packet.storage) && packet.Valid()
      ensures packet.start == PACKET_HEADROOM && packet.View() == wire
    {
      packet := new PacketBuf();
      var ok := packet.SetReadLen(|wire|);
      packet.Write(PACKET_HEADROOM, PACKET_HEADROOM, wire, PACKET_HEADROOM + |wire|);
    }

    /** Reads until the first error. Frames and error are those of the byte stream, for every way of
        cutting it into reads; `free` says for which frames a packet buffer is available. */
    method ReadAll(free: nat -> bool) returns (seen: seq<Seen>, error: StreamError)
      requires Valid()
      modifies this
      ensures seen == ThinAll(Parse(old(Remaining())).frames, free)
      ensures error == Parse(old(Remaining())).error && error != HardLimit && error != ReadLength
    {
      ParseIsFaithful(Remaining());
      hide Parse;
      hide Decode;
      hide Wires;
      hide WellFormed;
      seen := [];
      ghost var done: seq<Frame> := [];
      ghost var whole := Parse(Remaining());
      while true
        invariant Valid() && seen == ThinAll(done, free)
        invariant whole.frames == done + Parse(Remaining()).frames
        invariant whole.error == Parse(Remaining()).error
        decreases |Remaining()|
      {
        ghost var before := Remaining();
        var r, e := ReadFrame(free(|seen|));
        if r.Err? {
          StopsHere(before);
          return seen, e;
        }
        ghost var frame := Decode(before).frame;
        ParseGot(before, frame, Remaining());
        ThinMore(done, frame, free);
        hide ThinAll;
        done := done + [frame];
        match r.value {
          case ControlFrame(wire) => seen := seen + [Whole(Control(wire))];
          case DataFrame(packet) => seen := seen + [Whole(Data(packet.storage[packet.start..packet.end]))];
          case DataDropped => seen := seen + [Lost];
        }
      }
    }
  }
}
