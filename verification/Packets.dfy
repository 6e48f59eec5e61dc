/** A packet buffer: one storage array and the range of it that is the packet. */
module Packets {
  import opened Bytes

  const PACKET_HEADROOM: nat := 64
  const PACKET_CAPACITY: nat := 2304

  class PacketBuf {
    const storage: array<byte>
    var start: nat
    var end: nat

    ghost predicate Valid()
      reads this
    {
      storage.Length == PACKET_CAPACITY && start <= end <= PACKET_CAPACITY
    }

    ghost function View(): bytes
      reads this, storage
      requires Valid()
    {
      storage[start..end]
    }

    constructor ()
      ensures Valid() && fresh(storage) && start == end == PACKET_HEADROOM
    {
      storage := new byte[PACKET_CAPACITY](_ => 0);
      start, end := PACKET_HEADROOM, PACKET_HEADROOM;
    }

    /** A packet in a storage that was used before. */
    constructor Around(storage: array<byte>)
      requires storage.Length == PACKET_CAPACITY
      ensures Valid() && this.storage == storage && start == end == PACKET_HEADROOM
    {
      this.storage := storage;
      start, end := PACKET_HEADROOM, PACKET_HEADROOM;
    }

    /** Part of the packet, counted from its start. */
    method Slice(from: nat, to: nat) returns (b: bytes)
      requires Valid() && from <= to <= end - start
      ensures b == View()[from..to]
    {
      b := storage[start + from..start + to];
      assert forall i :: 0 <= i < |b| ==> b[i] == View()[from + i];
    }

    /** Each range operation either moves the range as asked or leaves it alone; none can break the
        bounds. */
    method SetReadLen(len: nat) returns (ok: bool)
      requires Valid()
      modifies this
      ensures Valid()
      ensures ok <==> len <= PACKET_CAPACITY - PACKET_HEADROOM
      ensures if ok then start == PACKET_HEADROOM && end == PACKET_HEADROOM + len
              else start == old(start) && end == old(end)
    {
      if len > PACKET_CAPACITY - PACKET_HEADROOM {
        return false;
      }
      start, end := PACKET_HEADROOM, PACKET_HEADROOM + len;
      ok := true;
    }

    method Prepend(len: nat) returns (ok: bool)
      requires Valid()
      modifies this
      ensures Valid() && end == old(end)
      ensures ok <==> len <= old(start)
      ensures start == if ok then old(start) - len else old(start)
    {
      if len > start {
        return false;
      }
      start := start - len;
      ok := true;
    }

    method ExtendTail(len: nat) returns (ok: bool)
      requires Valid()
      modifies this
      ensures Valid() && start == old(start)
      ensures ok <==> old(end) + len <= PACKET_CAPACITY
      ensures end == if ok then old(end) + len else old(end)
    {
      if end + len > PACKET_CAPACITY {
        return false;
      }
      end := end + len;
      ok := true;
    }

    method TrimFront(len: nat) returns (ok: bool)
      requires Valid()
      modifies this
      ensures Valid() && end == old(end)
      ensures ok <==> len <= old(end) - old(start)
      ensures start == if ok then old(start) + len else old(start)
      ensures ok ==> View() == old(View())[len..]
    {
      if len > end - start {
        return false;
      }
      start := start + len;
      ok := true;
    }

    method Truncate(len: nat) returns (ok: bool)
      requires Valid()
      modifies this
      ensures Valid() && start == old(start)
      ensures ok <==> len <= old(end) - old(start)
      ensures end == if ok then old(start) + len else old(end)
      ensures ok ==> View() == old(View())[..len]
    {
      if len > end - start {
        return false;
      }
      end := start + len;
      ok := true;
    }

    method SetRange(from: nat, to: nat) returns (ok: bool)
      requires Valid()
      modifies this
      ensures Valid()
      ensures ok <==> from <= to <= PACKET_CAPACITY
      ensures if ok then start == from && end == to else start == old(start) && end == old(end)
    {
      if from > to || to > PACKET_CAPACITY {
        return false;
      }
      start, end := from, to;
      ok := true;
    }

    /** Copies bytes into the storage at `at`; everything else stays. In particular a run of bytes
        that ended at `at` now continues with them, and what starts behind them is as before. */
    method Write(ghost from: nat, at: nat, data: bytes, ghost to: nat)
      requires Valid() && from <= at && at + |data| <= to <= PACKET_CAPACITY
      modifies storage
      ensures storage[from..at + |data|] == old(storage[from..at]) + data
      ensures storage[at + |data|..to] == old(storage[at + |data|..to])
      ensures forall i :: 0 <= i < from ==> storage[i] == old(storage[i])
    {
      forall i | 0 <= i < |data| {
        storage[at + i] := data[i];
      }
    }
  }
}
