/** Bytes and little-endian integers, as all the drivers here put them on a wire. */
module Bytes {

  type byte = b: int | 0 <= b < 256

  /** The value of the low n-byte pattern v (modulus m) read as two's complement. */
  function Signed(v: int, m: int): int
    requires m > 0
  {
    var u := v % m;
    if u < m / 2 then u else u - m
  }

  function Word16(d: seq<byte>): nat
    requires |d| >= 2
  {
    d[0] as int + 0x100 * (d[1] as int)
  }

  function Word32(d: seq<byte>): nat
    requires |d| >= 4
  {
    d[0] as int + 0x100 * (d[1] as int + 0x100 * (d[2] as int + 0x100 * (d[3] as int)))
  }

  function Le16(d: seq<byte>): int
    requires |d| >= 2
  {
    Signed(Word16(d), 0x1_0000)
  }

  function Le32(d: seq<byte>): int
    requires |d| >= 4
  {
    Signed(Word32(d), 0x1_0000_0000)
  }

  function Bytes16(v: int): seq<byte> {
    [v % 0x100, v / 0x100 % 0x100]
  }

  function Bytes32(v: int): seq<byte> {
    [v % 0x100, v / 0x100 % 0x100, v / 0x100 / 0x100 % 0x100, v / 0x100 / 0x100 / 0x100 % 0x100]
  }

  lemma Le16RoundTrip(v: int)
    ensures Le16(Bytes16(v)) == Signed(v, 0x1_0000)
    ensures -0x8000 <= v < 0x8000 ==> Le16(Bytes16(v)) == v
  {
    var a := v / 0x100;
    assert v % 0x1_0000 == v % 0x100 + 0x100 * (a % 0x100);
  }

  lemma Le32RoundTrip(v: int)
    ensures Word32(Bytes32(v)) == v % 0x1_0000_0000
    ensures Le32(Bytes32(v)) == Signed(v, 0x1_0000_0000)
    ensures -0x8000_0000 <= v < 0x8000_0000 ==> Le32(Bytes32(v)) == v
  {
    var a := v / 0x100;
    var b := a / 0x100;
    LowByte32(v);
    LowByte24(a);
    LowByte16(b);
  }

  lemma LowByte32(v: int)
    ensures v % 0x1_0000_0000 == v % 0x100 + 0x100 * (v / 0x100 % 0x100_0000)
  {
  }

  lemma LowByte24(v: int)
    ensures v % 0x100_0000 == v % 0x100 + 0x100 * (v / 0x100 % 0x1_0000)
  {
  }

  lemma LowByte16(v: int)
    ensures v % 0x1_0000 == v % 0x100 + 0x100 * (v / 0x100 % 0x100)
  {
  }
}
