/** Bytes, fixed-width big-endian integers and bitwise exclusive-or on naturals. */
module Bytes {

  type byte = x: int | 0 <= x < 0x100
  type bytes = seq<byte>
  type u16 = x: int | 0 <= x < 0x1_0000
  type u32 = x: int | 0 <= x < 0x1_0000_0000

  datatype Option<+T> = None | Some(value: T)
  datatype Result<+T> = Ok(value: T) | Err

  function Be16(n: u16): (b: bytes)
    ensures |b| == 2 && FromBe16(b) == n
  {
    [n / 0x100, n % 0x100]
  }

  function FromBe16(b: bytes): u16
    requires |b| == 2
  {
    var high: int, low: int := b[0], b[1];
    high * 0x100 + low
  }

  lemma ScaleAtLeast(b: nat, d: nat)
    requires d >= 1
    ensures b * d >= b
  {
  }

  /** Quotient and remainder are what the division identity says they are. */
  lemma Quotient(a: nat, b: nat, q: nat, r: nat)
    requires r < b && a == r + b * q
    ensures a / b == q && a % b == r
  {
    var q', r' := a / b, a % b;
    assert a == r' + b * q';
    if q' > q {
      ScaleAtLeast(b, q' - q);
      assert false;
    } else if q' < q {
      ScaleAtLeast(b, q - q');
      assert false;
    }
  }

  function Be32(n: u32): (b: bytes)
    ensures |b| == 4 && FromBe32(b) == n
  {
    var high, low := Be16(n / 0x1_0000), Be16(n % 0x1_0000);
    assert (high + low)[..2] == high && (high + low)[2..] == low;
    high + low
  }

  function FromBe32(b: bytes): u32
    requires |b| == 4
  {
    var high: int, low: int := FromBe16(b[..2]), FromBe16(b[2..]);
    high * 0x1_0000 + low
  }

  /** The number a run of octets spells, most significant first. */
  function BigEndian(b: bytes): nat {
    if b == [] then 0
    else
      var last: nat := b[|b| - 1];
      0x100 * BigEndian(b[..|b| - 1]) + last
  }

  lemma BigEndian2(b: bytes)
    requires |b| == 2
    ensures BigEndian(b) == FromBe16(b)
  {
    assert b[..1] == [b[0]] && b[..1][..0] == [];
    assert BigEndian(b[..1]) == b[0];
  }

  /** Numbers are spelled in network byte order. */
  lemma SpelledBigEndian(n: u16, m: u32)
    ensures BigEndian(Be16(n)) == n && BigEndian(Be32(m)) == m
  {
    BigEndian2(Be16(n));
    BigEndian4(Be32(m));
  }

  lemma BigEndian4(b: bytes)
    requires |b| == 4
    ensures BigEndian(b) == FromBe32(b)
  {
    BigEndian2(b[..2]);
    BigEndian2(b[2..]);
    assert b[..3][..2] == b[..2] && b[..3][2] == b[2] && b[2..] == [b[2], b[3]];
    assert BigEndian(b[..3]) == 0x100 * BigEndian(b[..2]) + b[2];
  }

  lemma Be16Inverse(b: bytes)
    requires |b| == 2
    ensures Be16(FromBe16(b)) == b
  {
    assert b == [b[0], b[1]];
  }

  lemma Be32Inverse(b: bytes)
    requires |b| == 4
    ensures Be32(FromBe32(b)) == b
  {
    Be16Inverse(b[..2]);
    Be16Inverse(b[2..]);
    Quotient(FromBe32(b), 0x1_0000, FromBe16(b[..2]), FromBe16(b[2..]));
    assert b == b[..2] + b[2..];
  }

  function Zeros(n: nat): (b: bytes)
    ensures |b| == n && forall i :: 0 <= i < n ==> b[i] == 0
  {
    seq(n, _ => 0)
  }

  function Pow2(n: nat): (p: nat)
    ensures p > 0
  {
    if n == 0 then 1 else 2 * Pow2(n - 1)
  }

  /** Exclusive-or of the low `width` bits of two naturals. */
  function Xor(width: nat, a: nat, b: nat): (x: nat)
    ensures x < Pow2(width)
  {
    if width == 0 then 0 else 2 * Xor(width - 1, a / 2, b / 2) + (if a % 2 == b % 2 then 0 else 1)
  }

  /** XOR with the same mask twice restores the value: what every XOR codec here rests on. */
  lemma {:induction false} XorInvolution(width: nat, a: nat, mask: nat)
    requires a < Pow2(width)
    ensures Xor(width, Xor(width, a, mask), mask) == a
  {
    if width != 0 {
      XorInvolution(width - 1, a / 2, mask / 2);
      var x := Xor(width - 1, a / 2, mask / 2);
      assert Xor(width, a, mask) / 2 == x;
    }
  }

  lemma Pow2Widths()
    ensures Pow2(8) == 0x100 && Pow2(16) == 0x1_0000 && Pow2(32) == 0x1_0000_0000
  {
    assert Pow2(4) == 16;
    assert Pow2(8) == 0x100;
    assert Pow2(12) == 0x1000;
    assert Pow2(16) == 0x1_0000;
    assert Pow2(20) == 0x10_0000;
    assert Pow2(24) == 0x100_0000;
    assert Pow2(28) == 0x1000_0000;
  }

  function XorByte(a: byte, b: byte): byte {
    Pow2Widths();
    Xor(8, a, b)
  }

  function Xor16(a: u16, b: u16): u16 {
    Pow2Widths();
    Xor(16, a, b)
  }

  function Xor32(a: u32, b: u32): u32 {
    Pow2Widths();
    Xor(32, a, b)
  }

  lemma XorByteInvolution(a: byte, mask: byte)
    ensures XorByte(XorByte(a, mask), mask) == a
  {
    Pow2Widths();
    XorInvolution(8, a, mask);
  }

  /** Octet-wise XOR of two equally long sequences. */
  function XorBytes(a: bytes, b: bytes): (x: bytes)
    requires |a| == |b|
    ensures |x| == |a| && forall i :: 0 <= i < |a| ==> x[i] == XorByte(a[i], b[i])
  {
    seq(|a|, i requires 0 <= i < |a| => XorByte(a[i], b[i]))
  }

  lemma XorBytesInvolution(a: bytes, mask: bytes)
    requires |a| == |mask|
    ensures XorBytes(XorBytes(a, mask), mask) == a
  {
    forall i | 0 <= i < |a| ensures XorBytes(XorBytes(a, mask), mask)[i] == a[i] {
      XorByteInvolution(a[i], mask[i]);
    }
  }
}
