/** Socket addresses, their flat form inside core events, and the STUN XOR address attribute
    (RFC 8489, section 14.2). */
module Addresses {
  import opened Bytes

  type Octets4 = s: bytes | |s| == 4 witness [0, 0, 0, 0]
  type Octets12 = s: bytes | |s| == 12 witness Zeros(12)
  type Octets16 = s: bytes | |s| == 16 witness Zeros(16)

  datatype Ip = V4(octets4: Octets4) | V6(octets16: Octets16)
  datatype SocketAddr = SocketAddr(ip: Ip, port: u16)

  const MAGIC_COOKIE: u32 := 0x2112_a442
  const COOKIE_BYTES: bytes := [0x21, 0x12, 0xa4, 0x42]

  // ---------------------------------------------------------------- event form

  const AF_IPV4: byte := 4
  const AF_IPV6: byte := 6

  /** The flat address carried by an event: an IPv4 address occupies the first four octets. */
  datatype NativeAddress = NativeAddress(family: byte, port: u16, ip: Octets16)

  const NO_ADDRESS: NativeAddress := NativeAddress(0, 0, Zeros(16))

  function FromSocketAddr(address: SocketAddr): NativeAddress {
    match address.ip
    case V4(octets) => NativeAddress(AF_IPV4, address.port, octets + Zeros(12))
    case V6(octets) => NativeAddress(AF_IPV6, address.port, octets)
  }

  function ToSocketAddr(address: NativeAddress): Option<SocketAddr> {
    if address.family == AF_IPV4 then Some(SocketAddr(V4(address.ip[..4]), address.port))
    else if address.family == AF_IPV6 then Some(SocketAddr(V6(address.ip), address.port))
    else None
  }

  lemma EventAddressRoundTrip(address: SocketAddr)
    ensures ToSocketAddr(FromSocketAddr(address)) == Some(address)
  {
    if address.ip.V4? {
      assert (address.ip.octets4 + Zeros(12))[..4] == address.ip.octets4;
    }
  }

  // ---------------------------------------------------------------- XOR address attribute

  function AddressMask(transaction: Octets12): Octets16 {
    COOKIE_BYTES + transaction
  }

  function EncodeXorAddress(address: SocketAddr, transaction: Octets12): bytes {
    var port := Be16(Xor16(address.port, MAGIC_COOKIE / 0x1_0000));
    match address.ip
    case V4(octets) => [0, 1] + port + Be32(Xor32(FromBe32(octets), MAGIC_COOKIE))
    case V6(octets) => [0, 2] + port + XorBytes(octets, AddressMask(transaction))
  }

  function DecodeXorAddress(value: bytes, transaction: Octets12): Result<SocketAddr> {
    if |value| < 4 || value[0] != 0 then Err
    else
      var port := Xor16(FromBe16(value[2..4]), MAGIC_COOKIE / 0x1_0000);
      if value[1] == 1 && |value| == 8 then
        Ok(SocketAddr(V4(Be32(Xor32(FromBe32(value[4..8]), MAGIC_COOKIE))), port))
      else if value[1] == 2 && |value| == 20 then
        Ok(SocketAddr(V6(XorBytes(value[4..], AddressMask(transaction))), port))
      else Err
  }

  lemma XorPortRoundTrip(port: u16)
    ensures Xor16(Xor16(port, MAGIC_COOKIE / 0x1_0000), MAGIC_COOKIE / 0x1_0000) == port
  {
    Pow2Widths();
    XorInvolution(16, port, MAGIC_COOKIE / 0x1_0000);
  }

  lemma XorOctets4RoundTrip(octets: Octets4)
    ensures Be32(Xor32(Xor32(FromBe32(octets), MAGIC_COOKIE), MAGIC_COOKIE)) == octets
  {
    Pow2Widths();
    XorInvolution(32, FromBe32(octets), MAGIC_COOKIE);
    Be32Inverse(octets);
  }

  /** Decoding what was encoded under the same transaction gives the address back, IPv4 and IPv6. */
  lemma XorAddressRoundTrip(address: SocketAddr, transaction: Octets12)
    ensures DecodeXorAddress(EncodeXorAddress(address, transaction), transaction) == Ok(address)
  {
    XorPortRoundTrip(address.port);
    var value := EncodeXorAddress(address, transaction);
    assert value[2..4] == Be16(Xor16(address.port, MAGIC_COOKIE / 0x1_0000));
    match address.ip
    case V4(octets) =>
      assert value[4..8] == Be32(Xor32(FromBe32(octets), MAGIC_COOKIE));
      XorOctets4RoundTrip(octets);
    case V6(octets) =>
      assert value[4..] == XorBytes(octets, AddressMask(transaction));
      XorBytesInvolution(octets, AddressMask(transaction));
  }

  /** The converse: every attribute value that decodes is the encoding of what it decodes to,
      so no two values name the same address. */
  lemma XorAddressUnique(value: bytes, transaction: Octets12)
    ensures var r := DecodeXorAddress(value, transaction);
            r.Ok? ==> EncodeXorAddress(r.value, transaction) == value
  {
    var r := DecodeXorAddress(value, transaction);
    if r.Ok? {
      Be16Inverse(value[2..4]);
      XorPortRoundTrip(FromBe16(value[2..4]));
      if value[1] == 1 {
        Pow2Widths();
        XorInvolution(32, FromBe32(value[4..8]), MAGIC_COOKIE);
        Be32Inverse(value[4..8]);
        assert value == [0, 1] + value[2..4] + value[4..8];
      } else {
        XorBytesInvolution(value[4..], AddressMask(transaction));
        assert value == [0, 2] + value[2..4] + value[4..];
      }
    }
  }
}
