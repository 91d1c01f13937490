/** CRC-32C as section 12.1 of RFC 3720 describes it: polynomials over two
    elements, divided bit by bit. The reference shares nothing with the table
    and its register. */
module CrcStandard {
  import opened Bytes
  import opened Crc

  // ---- The reference ----

  /** The exponents of the generator below its leading x^32. */
  const GENERATOR: set<nat> := {28, 27, 26, 25, 23, 22, 20, 19, 18, 14, 13, 11, 10, 9, 8, 6, 0}

  /** A remainder: its coefficient of x^e is at `e`. */
  type Remainder = r: seq<bool> | |r| == 32 witness seq(32, _ => false)

  /** The remainder taken one message bit further: times x, that bit added at
      x^32, reduced by the generator. */
  function Divided(r: Remainder, bit: bool): Remainder {
    var over := r[31] != bit;
    seq(32, e requires 0 <= e < 32 => (e > 0 && r[e - 1]) != (over && e in GENERATOR))
  }

  function DividedAll(r: Remainder, bits: seq<bool>): Remainder
    decreases |bits|
  {
    if bits == [] then r else DividedAll(Divided(r, bits[0]), bits[1..])
  }

  /** The low `n` bits of a byte, lowest first, as they are sent. */
  function ByteBits(b: nat, n: nat): (bits: seq<bool>)
    ensures |bits| == n
  {
    if n == 0 then [] else [b % 2 == 1] + ByteBits(b / 2, n - 1)
  }

  function SentBits(data: seq<byte>): seq<bool>
    decreases |data|
  {
    if data == [] then [] else ByteBits(data[0], 8) + SentBits(data[1..])
  }

  predicate Bit(c: bv32, k: nat) {
    if k == 0 then c & 1 == 1 else Bit(c >> 1, k - 1)
  }

  /** What the register holds: the remainder mirrored, x^31 in its lowest bit. */
  function Held(c: bv32): Remainder {
    seq(32, e requires 0 <= e < 32 => Bit(c, 31 - e))
  }

  // ---- The register's bits ----

  lemma BitUnfolds(c: bv32, k: nat)
    ensures Bit(c, 0) == Odd(c) && Bit(c, k + 1) == Bit(Half(c), k)
  {}

  lemma {:induction false} BitOfXor(x: bv32, y: bv32, k: nat)
    ensures Bit(Xor(x, y), k) <==> Bit(x, k) != Bit(y, k)
    decreases k
  {
    hide Bit, Xor, Odd, Half;
    var j := if k == 0 then 0 else k - 1;
    BitUnfolds(x, j);
    BitUnfolds(y, j);
    BitUnfolds(Xor(x, y), j);
    OddXor(x, y);
    if k > 0 {
      HalfXor(x, y);
      BitOfXor(Half(x), Half(y), k - 1);
    }
  }

  lemma LowBits(c: bv32)
    ensures Bit(c, 0) == (c & 1 != 0) && Bit(c, 1) == (c & 2 != 0)
    ensures Bit(c, 2) == (c & 4 != 0) && Bit(c, 3) == (c & 8 != 0)
  {
    assert Bit(c, 1) == Bit(c >> 1, 0);
    assert Bit(c >> 1, 1) == Bit(c >> 2, 0);
    assert Bit(c >> 1, 2) == Bit(c >> 2, 1) == Bit(c >> 3, 0);
  }

  lemma FourOn(c: bv32, k: nat)
    ensures Bit(c, k + 4) == Bit(c >> 4, k)
  {
    assert Bit(c, k + 4) == Bit(c >> 1, k + 3);
    assert Bit(c >> 1, k + 3) == Bit(c >> 2, k + 2);
    assert Bit(c >> 2, k + 2) == Bit(c >> 3, k + 1);
  }

  lemma {:induction false} HalvesOn(c: bv32, m: nat, n: nat)
    ensures HalfN(c, m + n) == HalfN(HalfN(c, m), n)
    decreases m
  {
    hide Half;
    if m > 0 {
      HalvesOn(Half(c), m - 1, n);
    }
  }

  lemma ThirtyTwoHalves(c: bv32)
    ensures HalfN(c, 32) == 0
  {
    var c8 := DropByte(c);
    var c16 := DropByte(c8);
    var c24 := DropByte(c16);
    assert DropByte(c24) == 0;
    hide HalfN, DropByte;
    HalvesOn(c, 8, 24);
    EightHalves(c);
    HalvesOn(c8, 8, 16);
    EightHalves(c8);
    HalvesOn(c16, 8, 8);
    EightHalves(c16);
    EightHalves(c24);
  }

  lemma {:induction false} BitIsAfterHalves(c: bv32, k: nat)
    ensures Bit(c, k) == Odd(HalfN(c, k))
    decreases k
  {
    hide Bit, Odd, Half;
    if k > 0 {
      BitUnfolds(c, k - 1);
      BitIsAfterHalves(Half(c), k - 1);
    } else {
      BitUnfolds(c, 0);
    }
  }

  lemma NothingAbove(c: bv32)
    ensures !Bit(c, 32)
  {
    hide Bit, HalfN;
    BitIsAfterHalves(c, 32);
    ThirtyTwoHalves(c);
  }

  /** The polynomial's constant is the generator, mirrored. */
  lemma PolyIsTheGenerator(k: nat)
    requires k < 32
    ensures Bit(POLY, k) <==> 31 - k in GENERATOR
  {
    LowBits(POLY);
    if k >= 4 {
      FourOn(POLY, k - 4);
      LowBits(POLY >> 4);
      if k >= 8 {
        FourOn(POLY >> 4, k - 8);
        LowBits(POLY >> 8);
        UpperPoly(k);
      }
    }
  }

  lemma UpperPoly(k: nat)
    requires 8 <= k < 32
    ensures Bit(POLY >> 8, k - 8) <==> 31 - k in GENERATOR
  {
    LowBits(POLY >> 8);
    if k >= 12 {
      FourOn(POLY >> 8, k - 12);
      LowBits(POLY >> 12);
      if k >= 16 {
        FourOn(POLY >> 12, k - 16);
        LowBits(POLY >> 16);
        if k >= 20 {
          FourOn(POLY >> 16, k - 20);
          LowBits(POLY >> 20);
          if k >= 24 {
            FourOn(POLY >> 20, k - 24);
            LowBits(POLY >> 24);
            if k >= 28 {
              FourOn(POLY >> 24, k - 28);
              LowBits(POLY >> 28);
            }
          }
        }
      }
    }
  }

  lemma WordOfByte(b: byte)
    ensures Odd(Word(b)) <==> b % 2 == 1
    ensures Half(Word(b)) == Word(b / 2)
  {
    OddByte(b);
    HalfByte(b);
  }

  lemma OddByte(b: byte)
    ensures Odd(Word(b)) <==> b % 2 == 1
  {
    // Sixteen blocks of sixteen: short enough for the solver to tabulate.
    if b < 128 {
      if b < 64 {
        if b < 32 { if b < 16 {} } else { if b < 48 {} }
      } else {
        if b < 96 { if b < 80 {} } else { if b < 112 {} }
      }
    } else {
      if b < 192 {
        if b < 160 { if b < 144 {} } else { if b < 176 {} }
      } else {
        if b < 224 { if b < 208 {} } else { if b < 240 {} }
      }
    }
  }

  lemma HalfByte(b: byte)
    ensures Half(Word(b)) == Word(b / 2)
  {
    hide ToBits, FromBits;
    BitsRoundTrip(b);
    BitsRoundTrip(b / 2);
    HalfBits(ToBits(b), ToBits(b / 2));
  }

  lemma HalfBits(v: bv8, w: bv8)
    requires FromBits(w) == FromBits(v) / 2
    ensures (v as bv32) >> 1 == w as bv32
  {
    assert (v >> 1) as int == v as int / 2;
  }

  // ---- The table's CRC is the standard one ----

  /** One bit: the register shifts as the remainder is divided. */
  lemma BitStepDivides(c: bv32, bit: bool)
    ensures Held(BitStep(c, bit)) == Divided(Held(c), bit)
  {
    hide Bit, Odd, Half, Xor, Shift, POLY;
    var r, r' := Held(BitStep(c, bit)), Divided(Held(c), bit);
    forall e | 0 <= e < 32 ensures r[e] == r'[e] {
      CoefficientMoves(c, bit, e);
    }
  }

  /** Folding a bit in at the low end changes the low bit only. */
  lemma BitOfFolded(c: bv32, bit: bool, k: nat)
    ensures Bit(Xor(c, if bit then 1 else 0), k) <==> Bit(c, k) != (bit && k == 0)
  {
    hide Xor;
    BitOfXor(c, if bit then 1 else 0, k);
    BitOfOne(k);
    BitOfZero(k);
  }

  lemma {:induction false} BitOfZero(k: nat)
    ensures !Bit(0, k)
  {
    if k > 0 {
      BitOfZero(k - 1);
    }
  }

  lemma BitOfOne(k: nat)
    ensures Bit(1, k) <==> k == 0
  {
    if k > 0 {
      BitOfZero(k - 1);
    }
  }

  lemma CoefficientMoves(c: bv32, bit: bool, e: nat)
    requires e < 32
    ensures Bit(BitStep(c, bit), 31 - e)
       <==> (e > 0 && Bit(c, 32 - e)) != (Bit(c, 0) != bit && e in GENERATOR)
  {
    var x, k := Xor(c, if bit then 1 else 0), 31 - e;
    BitUnfolds(x, k);
    BitOfFolded(c, bit, 0);
    BitOfFolded(c, bit, k + 1);
    NothingAbove(c);
    PolyIsTheGenerator(k);
    BitOfXor(Half(x), POLY, k);
    hide Bit, Odd, Half, Xor;
  }

  lemma {:induction false} BitSerialDivides(c: bv32, bits: seq<bool>)
    ensures Held(BitSerial(c, bits)) == DividedAll(Held(c), bits)
    decreases |bits|
  {
    hide Held, Divided, BitStep;
    if bits != [] {
      BitStepDivides(c, bits[0]);
      BitSerialDivides(BitStep(c, bits[0]), bits[1..]);
    }
  }

  lemma {:induction false} SameBits(b: byte, n: nat)
    ensures Bits(Word(b), n) == ByteBits(b, n)
    decreases n
  {
    hide Word, Odd, Half;
    if n > 0 {
      WordOfByte(b);
      SameBits(b / 2, n - 1);
    }
  }

  lemma {:induction false} SameMessage(data: seq<byte>)
    ensures MessageBits(data) == SentBits(data)
    decreases |data|
  {
    hide Bits, ByteBits, Word;
    if data != [] {
      SameBits(data[0], 8);
      SameMessage(data[1..]);
    }
  }

  /** For every seed and message the register of the table-driven CRC holds the
      remainder that dividing bit by bit leaves. */
  lemma TableCrcIsTheStandards(seed: bv32, data: seq<byte>)
    ensures Held(Crc32c(seed, data)) == DividedAll(Held(seed), SentBits(data))
  {
    hide *;
    TableCrcIsBitSerialCrc(seed, data);
    BitSerialDivides(seed, MessageBits(data));
    SameMessage(data);
  }

  /** Nothing is lost in that reading: the remainder tells the register. */
  lemma HeldTells(c: bv32, d: bv32)
    requires Held(c) == Held(d)
    ensures c == d
  {
    forall k: nat | k < 32 ensures Bit(c, k) == Bit(d, k) {
      assert Held(c)[31 - k] == Held(d)[31 - k];
    }
    SameBitsSameWord(c, d);
  }

  lemma SameBitsSameWord(c: bv32, d: bv32)
    requires forall k: nat :: k < 32 ==> Bit(c, k) == Bit(d, k)
    ensures c == d
  {
    hide Xor;
    forall k: nat | k < 32 ensures !Bit(Xor(c, d), k) {
      BitOfXor(c, d, k);
    }
    ThirtyTwoHalves(Xor(c, d));
    NoBits(Xor(c, d), 32);
    XorZero(c, d);
  }

  lemma {:induction false} NoBits(c: bv32, n: nat)
    requires HalfN(c, n) == 0 && forall k: nat :: k < n ==> !Bit(c, k)
    ensures c == 0
    decreases n
  {
    hide Bit, Half, Odd;
    if n > 0 {
      BitUnfolds(c, 0);
      forall k: nat | k < n - 1 ensures !Bit(Half(c), k) {
        BitUnfolds(c, k);
        assert !Bit(c, k + 1);
      }
      NoBits(Half(c), n - 1);
      NoHalf(c);
    }
  }

  lemma NoHalf(c: bv32)
    requires Half(c) == 0 && !Odd(c)
    ensures c == 0
  {}

  // ---- The standard's check value ----

  const DIGITS: seq<byte> := [49, 50, 51, 52, 53, 54, 55, 56, 57]

  lemma EightShifts(c: bv32)
    ensures Shifts(c, 8) == Shift(Shift(Shift(Shift(Shift(Shift(Shift(Shift(c))))))))
  {
    hide Shift;
  }

  lemma OneDigit(c: bv32, i: nat, d: bv32)
    requires i < 9 && Shift(Shift(Shift(Shift(Shift(Shift(Shift(Shift(c ^ Digit(i))))))))) == d
    ensures Crc32c(c, DIGITS[i..]) == Crc32c(d, DIGITS[i + 1..])
  {
    hide Step, Shift, Xor, Shifts, Word;
    StepIsEightShifts(c, DIGITS[i]);
    DigitIsWord(i);
    XorIs(c, Digit(i));
    EightShifts(Xor(c, Digit(i)));
    assert DIGITS[i..][1..] == DIGITS[i + 1..];
  }

  function Digit(i: nat): bv32
    requires i < 9
  {
    [0x31, 0x32, 0x33, 0x34, 0x35, 0x36, 0x37, 0x38, 0x39][i]
  }

  lemma DigitIsWord(i: nat)
    requires i < 9
    ensures Word(DIGITS[i]) == Digit(i)
  {
    if i < 3 {
      assert DIGITS[i] == 49 || DIGITS[i] == 50 || DIGITS[i] == 51;
    } else if i < 6 {
      assert DIGITS[i] == 52 || DIGITS[i] == 53 || DIGITS[i] == 54;
    } else {
      assert DIGITS[i] == 55 || DIGITS[i] == 56 || DIGITS[i] == 57;
    }
  }

  lemma XorIs(x: bv32, y: bv32)
    ensures Xor(x, y) == x ^ y
  {}

  lemma ThreeDigits()
    ensures Crc32c(0xFFFF_FFFF, DIGITS) == Crc32c(0xEF84_D04D, DIGITS[3..])
  {
    hide Crc32c;
    assert DIGITS == DIGITS[0..];
    OneDigit(0xFFFF_FFFF, 0, 0x6F0A_661C);
    OneDigit(0x6F0A_661C, 1, 0x8CAA_3B9F);
    OneDigit(0x8CAA_3B9F, 2, 0xEF84_D04D);
  }

  lemma SixDigits()
    ensures Crc32c(0xEF84_D04D, DIGITS[3..]) == Crc32c(0xBECA_8E79, DIGITS[6..])
  {
    hide Crc32c;
    OneDigit(0xEF84_D04D, 3, 0x09C5_0B11);
    OneDigit(0x09C5_0B11, 4, 0xE72E_DCCA);
    OneDigit(0xE72E_DCCA, 5, 0xBECA_8E79);
  }

  /** The CRC of "123456789" over all ones, without the final inversion. */
  lemma CheckValue()
    ensures Crc32c(0xFFFF_FFFF, DIGITS) == 0x1CF9_6D7C
  {
    hide Crc32c;
    ThreeDigits();
    SixDigits();
    OneDigit(0xBECA_8E79, 6, 0xEDBD_6815);
    OneDigit(0xEDBD_6815, 7, 0x9F78_7F65);
    OneDigit(0x9F78_7F65, 8, 0x1CF9_6D7C);
    CrcOfNothing(0x1CF9_6D7C);
    assert DIGITS[9..] == [];
  }

  lemma CrcOfNothing(c: bv32)
    ensures Crc32c(c, []) == c
  {}
}
