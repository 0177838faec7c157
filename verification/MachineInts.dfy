/** Fixed-width integers, where the width matters: bytes, `i32` and `u32`,
    and their big-endian form on the wire. */
module MachineInts {

  const TWO_POW_32: int := 0x1_0000_0000

  type Byte = x: int | 0 <= x < 256
  type Int32 = x: int | -0x8000_0000 <= x < 0x8000_0000
  type UInt32 = x: int | 0 <= x < 0x1_0000_0000
  type Bytes = seq<Byte>

  const INT32_MAX: int := 0x7FFF_FFFF

  /** The value an `i32` holds after arithmetic that wraps. */
  function WrapInt32(x: int): (r: Int32)
    ensures r % TWO_POW_32 == x % TWO_POW_32
    ensures -0x8000_0000 <= x < 0x8000_0000 ==> r == x
  {
    var low := x % TWO_POW_32;
    if low < 0x8000_0000 then low else low - TWO_POW_32
  }

  /** Wrapping keeps a value apart from every other unless they differ by a multiple of 2^32. */
  lemma WrapInt32SameIff(x: int, y: int)
    ensures WrapInt32(x) == WrapInt32(y) <==> (x - y) % TWO_POW_32 == 0
  {
    var d := x / TWO_POW_32 - y / TWO_POW_32;
    assert x - y == TWO_POW_32 * d + (x % TWO_POW_32 - y % TWO_POW_32);
  }

  function BigEndian(x: UInt32): (b: Bytes)
    ensures |b| == 4
  {
    var x1 := x / 0x100;
    var x2 := x1 / 0x100;
    [x2 / 0x100, x2 % 0x100, x1 % 0x100, x % 0x100]
  }

  function FromBigEndian(b: Bytes): UInt32
    requires |b| == 4
  {
    var b0: int, b1: int, b2: int, b3: int := b[0], b[1], b[2], b[3];
    ((b0 * 0x100 + b1) * 0x100 + b2) * 0x100 + b3
  }

  lemma BigEndianInverse(x: UInt32)
    ensures FromBigEndian(BigEndian(x)) == x
  {
  }

  lemma DivModByte(high: int, low: Byte)
    ensures (high * 0x100 + low) / 0x100 == high && (high * 0x100 + low) % 0x100 == low
  {
  }

  lemma FromBigEndianInverse(b: Bytes)
    requires |b| == 4
    ensures BigEndian(FromBigEndian(b)) == b
  {
    var b0: int, b1: int, b2: int := b[0], b[1], b[2];
    DivModByte(b0, b[1]);
    DivModByte(b0 * 0x100 + b1, b[2]);
    DivModByte((b0 * 0x100 + b1) * 0x100 + b2, b[3]);
  }

  /** An `i32` in two's complement. */
  function Int32ToBytes(x: Int32): (b: Bytes)
    ensures |b| == 4
  {
    BigEndian(x % TWO_POW_32)
  }

  function BytesToInt32(b: Bytes): Int32
    requires |b| == 4
  {
    WrapInt32(FromBigEndian(b))
  }

  lemma Int32BytesInverse(x: Int32)
    ensures BytesToInt32(Int32ToBytes(x)) == x
  {
    BigEndianInverse(x % TWO_POW_32);
  }
}
