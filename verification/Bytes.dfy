/** Fixed-width integers of the wire formats, and the bridge to bit vectors. */
module Bytes {

  type byte = x: int | 0 <= x < 256
  type u16 = x: int | 0 <= x < 0x1_0000
  type u32 = x: int | 0 <= x < 0x1_0000_0000

  function ToBits(b: byte): bv8 { b as bv8 }

  function FromBits(v: bv8): byte { v as int }

  lemma BitsRoundTrip(b: byte)
    ensures FromBits(ToBits(b)) == b
  {
    CastRoundTrip(b);
  }

  lemma CastRoundTrip(b: byte)
    ensures (b as bv8) as int == b
  {
    // Sixteen blocks of sixteen: short enough for the solver to tabulate.
    if b < 128 {
      if b < 64 {
        if b < 32 { if b < 16 {} } else { if b < 48 {} }
      } else {
        if b < 96 { if b < 80 {} } else { if b < 112 {} }
      }
    } else {
      if b < 192 {
        if b < 160 { if b < 144 {} } else { if b < 176 {} }
      } else {
        if b < 224 { if b < 208 {} } else { if b < 240 {} }
      }
    }
  }

  lemma BitsRoundTripBack(v: bv8)
    ensures ToBits(FromBits(v)) == v
  {}

  /** `u16::to_le_bytes` and its inverse. */
  function Le16(x: u16): (r: seq<byte>)
    ensures |r| == 2
  {
    [x % 256, x / 256]
  }

  function FromLe16(lo: byte, hi: byte): u16 { lo + 256 * hi }

  /** `u32::to_le_bytes` of a CRC register. */
  function Le32(x: bv32): (r: seq<byte>)
    ensures |r| == 4
  {
    [FromBits((x & 0xff) as bv8),
     FromBits(((x >> 8) & 0xff) as bv8),
     FromBits(((x >> 16) & 0xff) as bv8),
     FromBits(((x >> 24) & 0xff) as bv8)]
  }

  lemma Le32Injective(x: bv32, y: bv32)
    requires Le32(x) == Le32(y)
    ensures x == y
  {
    var xs, ys := Le32(x), Le32(y);
    assert xs[0] == ys[0] && xs[1] == ys[1] && xs[2] == ys[2] && xs[3] == ys[3];
    BitsRoundTripBack((x & 0xff) as bv8);
    BitsRoundTripBack((y & 0xff) as bv8);
    BitsRoundTripBack(((x >> 8) & 0xff) as bv8);
    BitsRoundTripBack(((y >> 8) & 0xff) as bv8);
    BitsRoundTripBack(((x >> 16) & 0xff) as bv8);
    BitsRoundTripBack(((y >> 16) & 0xff) as bv8);
    BitsRoundTripBack(((x >> 24) & 0xff) as bv8);
    BitsRoundTripBack(((y >> 24) & 0xff) as bv8);
    FourBytesDetermine(x, y);
  }

  lemma FourBytesDetermine(x: bv32, y: bv32)
    requires (x & 0xff) as bv8 == (y & 0xff) as bv8
    requires ((x >> 8) & 0xff) as bv8 == ((y >> 8) & 0xff) as bv8
    requires ((x >> 16) & 0xff) as bv8 == ((y >> 16) & 0xff) as bv8
    requires ((x >> 24) & 0xff) as bv8 == ((y >> 24) & 0xff) as bv8
    ensures x == y
  {}
}
