/** CRC-32C as the packets use it: reflected, seeded by the caller, no final
    XOR. The table-driven form is proved equal to a register fed bit by bit, and
    to detect every change confined to four consecutive bytes; that the register
    is the standard's is proved in CrcStandard. */
module Crc {
  import opened Bytes

  const POLY: bv32 := 0x82F6_3B78

  // Exclusive or and the one-place shift carry names, so that the algebra of
  // the register can be argued without looking at single bits.

  function Xor(x: bv32, y: bv32): bv32 { x ^ y }

  function Half(x: bv32): bv32 { x >> 1 }

  predicate Odd(x: bv32) { x & 1 != 0 }

  function Low(x: bv32): bv32 { x & 0xff }

  function High(x: bv32): bv32 { x & 0xffff_ff00 }

  function DropByte(x: bv32): bv32 { x >> 8 }

  function RaiseByte(x: bv32): bv32 { x << 8 }

  /** One bit of the reflected shift register. */
  function Shift(c: bv32): bv32 {
    if Odd(c) then Xor(Half(c), POLY) else Half(c)
  }

  function Shifts(c: bv32, n: nat): bv32
    decreases n
  {
    if n == 0 then c else Shifts(Shift(c), n - 1)
  }

  function Word(b: byte): bv32 { ToBits(b) as bv32 }

  function LowByte(c: bv32): byte { FromBits((c & 0xff) as bv8) }

  function Table(): (t: seq<bv32>)
    ensures |t| == 256
    ensures forall k :: 0 <= k < 256 ==> t[k] == Shifts(Word(k), 8)
  {
    seq(256, k requires 0 <= k < 256 => Shifts(Word(k), 8))
  }

  /** Fills the 256-entry table: each byte, shifted eight times bit by bit. */
  method BuildTable() returns (table: array<bv32>)
    ensures fresh(table)
    ensures table[..] == Table()
  {
    hide Xor, Half, Odd, Word;
    table := new bv32[256];
    var i := 0;
    while i < 256
      invariant 0 <= i <= 256
      invariant forall k :: 0 <= k < i ==> table[k] == Shifts(Word(k), 8)
    {
      var crc := Word(i);
      var bit := 0;
      while bit < 8
        invariant 0 <= bit <= 8
        invariant Shifts(crc, 8 - bit) == Shifts(Word(i), 8)
      {
        crc := if Odd(crc) then Xor(Half(crc), POLY) else Half(crc);
        bit := bit + 1;
      }
      table[i] := crc;
      i := i + 1;
    }
  }

  /** One byte of the table-driven fold. */
  function Step(c: bv32, b: byte): bv32 {
    Xor(Table()[LowByte(Xor(c, Word(b)))], DropByte(c))
  }

  function Crc32c(seed: bv32, data: seq<byte>): bv32
    decreases |data|
  {
    if data == [] then seed else Crc32c(Step(seed, data[0]), data[1..])
  }

  // ---- The reference: one message bit at a time, low bit first ----

  function BitStep(c: bv32, bit: bool): bv32 {
    Shift(Xor(c, if bit then 1 else 0))
  }

  function BitSerial(c: bv32, bits: seq<bool>): bv32
    decreases |bits|
  {
    if bits == [] then c else BitSerial(BitStep(c, bits[0]), bits[1..])
  }

  /** The low `n` bits of a word, lowest first. */
  function Bits(w: bv32, n: nat): seq<bool>
    decreases n
  {
    if n == 0 then [] else [Odd(w)] + Bits(Half(w), n - 1)
  }

  function MessageBits(data: seq<byte>): seq<bool>
    decreases |data|
  {
    if data == [] then [] else Bits(Word(data[0]), 8) + MessageBits(data[1..])
  }

  // ---- Bit facts ----

  lemma XorAssociative(x: bv32, y: bv32, z: bv32)
    ensures Xor(Xor(x, y), z) == Xor(x, Xor(y, z))
  {}

  lemma XorCommutative(x: bv32, y: bv32)
    ensures Xor(x, y) == Xor(y, x)
  {}

  lemma XorSelf(x: bv32)
    ensures Xor(x, x) == 0 && Xor(x, 0) == x
  {}

  lemma XorCancel(x: bv32, y: bv32)
    ensures Xor(Xor(x, y), y) == x
  {}

  lemma XorLaws(x: bv32, y: bv32, p: bv32)
    ensures Xor(Xor(x, p), Xor(y, p)) == Xor(x, y)
    ensures Xor(Xor(x, p), y) == Xor(Xor(x, y), p)
    ensures Xor(x, Xor(y, p)) == Xor(Xor(x, y), p)
  {
    hide Xor;
    XorAssociative(x, y, p);
    XorAssociative(x, p, y);
    XorCommutative(p, y);
    XorAssociative(x, p, Xor(y, p));
    XorCommutative(p, Xor(y, p));
    XorCancel(y, p);
  }

  lemma XorZero(x: bv32, y: bv32)
    ensures Xor(x, y) == 0 <==> x == y
  {}

  lemma HalfXor(x: bv32, y: bv32)
    ensures Half(Xor(x, y)) == Xor(Half(x), Half(y))
  {}

  lemma OddXor(x: bv32, y: bv32)
    ensures Odd(Xor(x, y)) <==> (Odd(x) != Odd(y))
  {}

  lemma LowHigh(x: bv32)
    ensures x == Xor(Low(x), High(x))
    ensures DropByte(High(x)) == DropByte(x)
    ensures Low(High(x)) == 0
  {}

  lemma DropByteXor(x: bv32, y: bv32)
    ensures DropByte(Xor(x, y)) == Xor(DropByte(x), DropByte(y))
  {}

  lemma WordOfLowByte(c: bv32)
    ensures Word(LowByte(c)) == Low(c)
  {
    BitsRoundTripBack((c & 0xff) as bv8);
  }

  lemma WordIsSmall(b: byte)
    ensures DropByte(Word(b)) == 0
  {
    var w := ToBits(b);
    assert (w as bv32) >> 8 == 0;
  }

  // ---- Linearity and injectivity of the register ----

  lemma ShiftLinear(x: bv32, y: bv32)
    ensures Shift(Xor(x, y)) == Xor(Shift(x), Shift(y))
  {
    hide Xor, Half, Odd;
    HalfXor(x, y);
    OddXor(x, y);
    XorLaws(Half(x), Half(y), POLY);
    XorLaws(Half(y), Half(x), POLY);
  }

  lemma {:induction false} ShiftsLinear(x: bv32, y: bv32, n: nat)
    ensures Shifts(Xor(x, y), n) == Xor(Shifts(x, n), Shifts(y, n))
    decreases n
  {
    hide Xor, Shift;
    if n > 0 {
      ShiftLinear(x, y);
      ShiftsLinear(Shift(x), Shift(y), n - 1);
    }
  }

  lemma ShiftInjective(x: bv32, y: bv32)
    requires Shift(x) == Shift(y)
    ensures x == y
  {}

  lemma {:induction false} ShiftsInjective(x: bv32, y: bv32, n: nat)
    requires Shifts(x, n) == Shifts(y, n)
    ensures x == y
    decreases n
  {
    hide Shift;
    if n > 0 {
      ShiftsInjective(Shift(x), Shift(y), n - 1);
      ShiftInjective(x, y);
    }
  }

  lemma {:induction false} ShiftsOfZero(n: nat)
    ensures Shifts(0, n) == 0
    decreases n
  {
    if n > 0 {
      ShiftOfZero();
      hide Shift;
      ShiftsOfZero(n - 1);
    }
  }

  lemma ShiftOfZero()
    ensures Shift(0) == 0
  {}

  lemma {:induction false} ShiftsAdd(c: bv32, m: nat, n: nat)
    ensures Shifts(c, m + n) == Shifts(Shifts(c, m), n)
    decreases m
  {
    hide Shift;
    if m > 0 {
      ShiftsAdd(Shift(c), m - 1, n);
    }
  }

  function HalfN(c: bv32, n: nat): bv32
    decreases n
  {
    if n == 0 then c else HalfN(Half(c), n - 1)
  }

  predicate LowBitsClear(c: bv32, n: nat)
    decreases n
  {
    n == 0 || (!Odd(c) && LowBitsClear(Half(c), n - 1))
  }

  lemma {:induction false} ShiftsOfClearBits(c: bv32, n: nat)
    requires LowBitsClear(c, n)
    ensures Shifts(c, n) == HalfN(c, n)
    decreases n
  {
    hide Odd, Half, Xor;
    if n > 0 {
      ShiftsOfClearBits(Half(c), n - 1);
    }
  }

  lemma EightHalves(c: bv32)
    ensures HalfN(c, 8) == DropByte(c)
  {
    var c2 := c >> 2;
    var c4 := c >> 4;
    var c6 := c >> 6;
    assert HalfN(c6, 2) == c >> 8;
    assert HalfN(c4, 4) == HalfN(c6, 2);
    assert HalfN(c2, 6) == HalfN(c4, 4);
  }

  lemma ClearByteIsClearBits(c: bv32)
    requires Low(c) == 0
    ensures LowBitsClear(c, 8)
  {
    assert Low(c) == c & 0xff;
    assert LowBitsClear(c >> 8, 0);
    assert LowBitsClear(c >> 7, 1);
    assert LowBitsClear(c >> 6, 2);
    assert LowBitsClear(c >> 5, 3);
    assert LowBitsClear(c >> 4, 4);
    assert LowBitsClear(c >> 3, 5);
    assert LowBitsClear(c >> 2, 6);
    assert LowBitsClear(c >> 1, 7);
  }

  lemma ByteShiftsOfClearByte(c: bv32)
    requires Low(c) == 0
    ensures Shifts(c, 8) == DropByte(c)
  {
    hide *;
    EightHalves(c);
    ClearByteIsClearBits(c);
    ShiftsOfClearBits(c, 8);
  }

  /** The table lookup is eight shifts of the register with the byte folded in. */
  lemma StepIsEightShifts(c: bv32, b: byte)
    ensures Step(c, b) == Shifts(Xor(c, Word(b)), 8)
  {
    hide Xor, Low, High, DropByte, Word, LowByte, Shifts;
    var x := Xor(c, Word(b));
    LowHigh(x);
    WordOfLowByte(x);
    ShiftsLinear(Low(x), High(x), 8);
    ByteShiftsOfClearByte(High(x));
    DropByteXor(c, Word(b));
    WordIsSmall(b);
    XorSelf(DropByte(c));
  }

  /** Folding the low bit in and shifting both registers on. */
  lemma OneBit(c: bv32, w: bv32)
    ensures Shift(Xor(c, w)) == Xor(BitStep(c, Odd(w)), Half(w))
  {
    var low: bv32 := if Odd(w) then 1 else 0;
    SplitLowBit(w);
    hide Xor, Odd, Half;
    XorLaws(c, low, Xor(low, w));
    ShiftLinear(Xor(c, low), Xor(low, w));
    XorLaws(low, low, w);
    XorLaws(low, w, low);
    XorLaws(w, low, low);
    XorLaws(c, w, low);
  }

  lemma SplitLowBit(w: bv32)
    ensures var low: bv32 := if Odd(w) then 1 else 0;
            && Shift(Xor(low, w)) == Half(w)
            && Xor(low, Xor(low, w)) == w
  {}

  lemma {:induction false} ShiftsAreBitSerial(c: bv32, w: bv32, n: nat)
    ensures Shifts(Xor(c, w), n) == Xor(BitSerial(c, Bits(w, n)), HalfN(w, n))
    decreases n
  {
    if n > 0 {
      OneBit(c, w);
      hide Xor, Odd, Half, Shift, BitStep;
      assert Bits(w, n)[1..] == Bits(Half(w), n - 1);
      ShiftsAreBitSerial(BitStep(c, Odd(w)), Half(w), n - 1);
    }
  }

  lemma StepIsBitSerial(c: bv32, b: byte)
    ensures Step(c, b) == BitSerial(c, Bits(Word(b), 8))
  {
    hide *;
    StepIsEightShifts(c, b);
    ShiftsAreBitSerial(c, Word(b), 8);
    EightHalves(Word(b));
    WordIsSmall(b);
    XorSelf(BitSerial(c, Bits(Word(b), 8)));
  }

  lemma {:induction false} BitSerialAppend(c: bv32, x: seq<bool>, y: seq<bool>)
    ensures BitSerial(c, x + y) == BitSerial(BitSerial(c, x), y)
    decreases |x|
  {
    hide BitStep;
    if x == [] {
      assert x + y == y;
    } else {
      assert (x + y)[1..] == x[1..] + y;
      BitSerialAppend(BitStep(c, x[0]), x[1..], y);
    }
  }

  /** The table-driven CRC is the bit-serial CRC-32C of the message's bits. */
  lemma {:induction false} TableCrcIsBitSerialCrc(seed: bv32, data: seq<byte>)
    ensures Crc32c(seed, data) == BitSerial(seed, MessageBits(data))
    decreases |data|
  {
    hide Step, BitStep, Word, Bits;
    if data != [] {
      StepIsBitSerial(seed, data[0]);
      TableCrcIsBitSerialCrc(Step(seed, data[0]), data[1..]);
      BitSerialAppend(seed, Bits(Word(data[0]), 8), MessageBits(data[1..]));
    }
  }

  lemma {:induction false} CrcComposes(seed: bv32, x: seq<byte>, y: seq<byte>)
    ensures Crc32c(seed, x + y) == Crc32c(Crc32c(seed, x), y)
    decreases |x|
  {
    hide Step;
    if x == [] {
      assert x + y == y;
    } else {
      assert (x + y)[1..] == x[1..] + y;
      CrcComposes(Step(seed, x[0]), x[1..], y);
    }
  }

  // ---- Error detection ----

  /** Over the same bytes, two registers' difference evolves on its own. */
  lemma {:induction false} DifferenceOverSameBytes(c: bv32, d: bv32, data: seq<byte>)
    ensures Xor(Crc32c(c, data), Crc32c(d, data)) == Shifts(Xor(c, d), 8 * |data|)
    decreases |data|
  {
    if data != [] {
      hide Xor, Step, Word, Shift;
      var b := data[0];
      StepIsEightShifts(c, b);
      StepIsEightShifts(d, b);
      ShiftsLinear(Xor(c, Word(b)), Xor(d, Word(b)), 8);
      XorLaws(c, d, Word(b));
      DifferenceOverSameBytes(Step(c, b), Step(d, b), data[1..]);
      ShiftsAdd(Xor(c, d), 8, 8 * |data[1..]|);
    }
  }

  /** Different seeds give different CRCs of the same bytes, and only they do. */
  lemma SeedDeterminesCrc(c: bv32, d: bv32, data: seq<byte>)
    ensures Crc32c(c, data) == Crc32c(d, data) <==> c == d
  {
    hide Xor, Step, Shifts;
    DifferenceOverSameBytes(c, d, data);
    ShiftsOfZero(8 * |data|);
    XorZero(c, d);
    XorZero(Crc32c(c, data), Crc32c(d, data));
    if Crc32c(c, data) == Crc32c(d, data) {
      ShiftsInjective(Xor(c, d), 0, 8 * |data|);
    }
  }

  /** Up to four bytes as the little-endian word they are on the wire. */
  function Quad(d: seq<byte>): bv32
    decreases |d|
  {
    if d == [] then 0 else Xor(Word(d[0]), RaiseByte(Quad(d[1..])))
  }

  lemma RaisedByte(w: bv32, n: nat)
    requires n < 4
    requires Fits(w, n)
    ensures Low(RaiseByte(w)) == 0
    ensures DropByte(RaiseByte(w)) == w
  {}

  /** `w` has nothing above its low `n` bytes. */
  predicate Fits(w: bv32, n: nat)
    requires n <= 4
  {
    if n == 0 then w == 0
    else if n == 1 then w >> 8 == 0
    else if n == 2 then w >> 16 == 0
    else n == 3 ==> w >> 24 == 0
  }

  lemma FitsByte(b: byte, w: bv32, n: nat)
    requires n < 4 && Fits(w, n)
    ensures Fits(Xor(Word(b), RaiseByte(w)), n + 1)
  {
    WordIsSmall(b);
  }

  lemma {:induction false} QuadFits(d: seq<byte>)
    requires |d| <= 4
    ensures Fits(Quad(d), |d|)
    decreases |d|
  {
    hide Xor, Word, RaiseByte;
    if d != [] {
      hide Fits;
      QuadFits(d[1..]);
      FitsByte(d[0], Quad(d[1..]), |d| - 1);
    }
  }

  /** Up to four bytes act on the register as one word. */
  lemma {:induction false} QuadStep(c: bv32, d: seq<byte>)
    requires |d| <= 4
    ensures Crc32c(c, d) == Shifts(Xor(c, Quad(d)), 8 * |d|)
    decreases |d|
  {
    if d == [] {
      XorSelf(c);
    } else {
      hide Xor, Step, Word, Shift, RaiseByte, Fits, DropByte, Low;
      var b, rest := d[0], d[1..];
      var r := Quad(rest);
      QuadFits(rest);
      StepIsEightShifts(c, b);
      QuadStep(Step(c, b), rest);
      RaisedByte(r, |rest|);
      ByteShiftsOfClearByte(RaiseByte(r));
      XorLaws(c, Word(b), RaiseByte(r));
      ShiftsLinear(Xor(c, Word(b)), RaiseByte(r), 8);
      ShiftsAdd(Xor(c, Quad(d)), 8, 8 * |rest|);
    }
  }

  lemma QuadsDiffer(x: seq<byte>, y: seq<byte>)
    requires |x| == |y| <= 4
    ensures Quad(x) == Quad(y) <==> x == y
    decreases |x|
  {
    if x == [] {
      assert y == [];
    } else if Quad(x) == Quad(y) {
      QuadFits(x[1..]);
      QuadFits(y[1..]);
      TopByte(x[0], Quad(x[1..]), y[0], Quad(y[1..]), |x| - 1);
      QuadsDiffer(x[1..], y[1..]);
      assert x == [x[0]] + x[1..];
      assert y == [y[0]] + y[1..];
    }
  }

  lemma TopByte(a: byte, v: bv32, b: byte, w: bv32, n: nat)
    requires n < 4 && Fits(v, n) && Fits(w, n)
    requires Xor(Word(a), RaiseByte(v)) == Xor(Word(b), RaiseByte(w))
    ensures a == b && v == w
  {
    ByteAndRest(ToBits(a), v, ToBits(b), w);
    BitsRoundTrip(a);
    BitsRoundTrip(b);
  }

  lemma ByteAndRest(a: bv8, v: bv32, b: bv8, w: bv32)
    requires v >> 24 == 0 && w >> 24 == 0
    requires (a as bv32) ^ (v << 8) == (b as bv32) ^ (w << 8)
    ensures a == b && v == w
  {}

  /** When the bytes of two same-length messages differ only in four consecutive
      ones, after `|pre|` shared bytes, the CRCs agree exactly when the four
      bytes' difference is what the seeds' difference has become by then. */
  lemma BurstDifference(c: bv32, d: bv32, pre: seq<byte>, x: seq<byte>, y: seq<byte>, post: seq<byte>)
    requires |x| == |y| == 4
    ensures Crc32c(c, pre + x + post) == Crc32c(d, pre + y + post)
      <==> Xor(Quad(x), Quad(y)) == Shifts(Xor(c, d), 8 * |pre|)
  {
    hide *;
    var c1, d1 := Crc32c(c, pre), Crc32c(d, pre);
    DifferenceOverSameBytes(c, d, pre);
    CrcComposes(c, pre, x);
    CrcComposes(d, pre, y);
    CrcComposes(c, pre + x, post);
    CrcComposes(d, pre + y, post);
    QuadStep(c1, x);
    QuadStep(d1, y);
    SeedDeterminesCrc(Crc32c(c1, x), Crc32c(d1, y), post);
    if Crc32c(c1, x) == Crc32c(d1, y) {
      ShiftsInjective(Xor(c1, Quad(x)), Xor(d1, Quad(y)), 32);
    }
    XorMove(c1, d1, Quad(x), Quad(y));
  }

  lemma XorMove(c: bv32, d: bv32, x: bv32, y: bv32)
    ensures Xor(c, x) == Xor(d, y) <==> Xor(x, y) == Xor(c, d)
  {
    hide Xor;
    XorZero(Xor(c, x), Xor(d, y));
    XorZero(Xor(x, y), Xor(c, d));
    // (c ^ x) ^ (d ^ y) == (c ^ d) ^ (x ^ y)
    XorAssociative(c, x, Xor(d, y));
    XorAssociative(x, d, y);
    XorCommutative(x, d);
    XorAssociative(d, x, y);
    XorAssociative(c, d, Xor(x, y));
    XorCommutative(Xor(c, d), Xor(x, y));
  }
}
