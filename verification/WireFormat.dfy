/** The bytes of packets and messages, place by place, as the protocol's
    description lays them out. */
module WireFormat {
  import opened Bytes
  import opened Crc
  import opened CrcStandard
  import opened Packets
  import M = Messages

  /** Whatever is sent in eight bits, lowest first, comes back bit by bit. */
  lemma {:induction false} BitsAt(c: bv32, n: nat, k: nat)
    requires k < n
    ensures |Bits(c, n)| == n && Bits(c, n)[k] == Bit(c, k)
    decreases n
  {
    hide Bit, Odd, Half;
    BitUnfolds(c, if k == 0 then 0 else k - 1);
    if n > 1 {
      BitsAt(Half(c), n - 1, if k == 0 then 0 else k - 1);
    }
  }

  lemma EightOn(c: bv32, k: nat)
    ensures Bit(c, k + 8) == Bit(DropByte(c), k)
  {
    assert (c >> 4) >> 4 == DropByte(c);
    hide DropByte, Bit;
    FourOn(c, k + 4);
    FourOn(c >> 4, k);
  }

  lemma LowBit(c: bv32, k: nat)
    requires k < 8
    ensures Bit(Low(c), k) == Bit(c, k)
  {
    LowBits(c);
    LowBits(Low(c));
    if k >= 4 {
      FourOn(c, k - 4);
      FourOn(Low(c), k - 4);
      LowBits(c >> 4);
      LowBits(Low(c) >> 4);
    }
  }

  /** The bits of a register's low byte as they are sent. */
  lemma LowByteSent(c: bv32, k: nat)
    requires k < 8
    ensures ByteBits(LowByte(c), 8)[k] == Bit(c, k)
  {
    hide LowByte, Word, Low, Bit, Bits, ByteBits;
    WordOfLowByte(c);
    SameBits(LowByte(c), 8);
    BitsAt(Low(c), 8, k);
    LowBit(c, k);
  }

  lemma {:induction false} SentBitsAt(data: seq<byte>, i: nat, k: nat)
    requires i < |data| && k < 8
    ensures |SentBits(data)| == 8 * |data| && SentBits(data)[8 * i + k] == ByteBits(data[i], 8)[k]
    decreases |data|
  {
    hide ByteBits;
    if |data| > 1 {
      SentBitsAt(data[1..], if i == 0 then 0 else i - 1, k);
    }
  }

  lemma Le32Bytes(c: bv32)
    ensures Le32(c) == [LowByte(c), LowByte(DropByte(c)), LowByte(DropByte(DropByte(c))),
                        LowByte(DropByte(DropByte(DropByte(c))))]
  {
    assert c >> 16 == (c >> 8) >> 8 && c >> 24 == ((c >> 8) >> 8) >> 8;
  }

  /** A register sent low byte first is sent lowest bit first. */
  lemma RegisterSent(c: bv32, k: nat)
    requires k < 32
    ensures |SentBits(Le32(c))| == 32 && SentBits(Le32(c))[k] == Bit(c, k)
  {
    hide LowByte, DropByte, Bit, SentBits, ByteBits, Le32;
    Le32Bytes(c);
    var i, j := k / 8, k % 8;
    var d1 := DropByte(c);
    var d2 := DropByte(d1);
    SentBitsAt(Le32(c), i, j);
    if i == 0 {
      LowByteSent(c, j);
    } else if i == 1 {
      LowByteSent(d1, j);
      EightOn(c, j);
    } else if i == 2 {
      LowByteSent(d2, j);
      EightOn(c, j + 8);
      EightOn(d1, j);
    } else {
      LowByteSent(DropByte(d2), j);
      EightOn(c, j + 16);
      EightOn(d1, j + 8);
      EightOn(d2, j);
    }
  }

  /** A packet is magic, number, length with 256 sent as 0, opcode and payload,
      and then, from the highest power down, the remainder of all these bits. */
  lemma PacketOnTheWire(p: Packet, seed: bv32)
    requires Encodable(p)
    ensures var bytes := Encode(p, seed);
      var n := |bytes| - 4;
      && |bytes| == 8 + |p.payload|
      && bytes[..4] == [0x81, p.seq_, if |bytes| == 256 then 0 else |bytes|, p.opcode]
      && bytes[4..n] == p.payload
      && |SentBits(bytes[n..])| == 32
      && forall k :: 0 <= k < 32 ==>
           SentBits(bytes[n..])[k] == DividedAll(Held(seed), SentBits(bytes[..n]))[31 - k]
  {
    hide Crc32c, Le32, SentBits, DividedAll, Bit;
    var bytes := Encode(p, seed);
    var n := |bytes| - 4;
    var body := Body(p);
    var crc := Crc32c(seed, body);
    assert bytes[..n] == body && bytes[n..] == Le32(crc);
    TableCrcIsTheStandards(seed, body);
    RegisterSent(crc, 0);
    forall k | 0 <= k < 32
      ensures SentBits(bytes[n..])[k] == DividedAll(Held(seed), SentBits(body))[31 - k]
    {
      RegisterSent(crc, k);
    }
  }

  /** A message that fits is its length, low byte first and itself included,
      then opcode, id and body. */
  lemma MessageOnTheWire(m: M.Message)
    requires |m.body| <= 65531
    ensures var bytes := M.Encoded(m);
      && |bytes| == 4 + |m.body|
      && bytes[0] as int + 256 * bytes[1] as int == |bytes|
      && bytes[2] == m.opcode && bytes[3] == m.id && bytes[4..] == m.body
  {}
}
