/** Link-layer packets: magic, seq, length (0 means 256), opcode, payload and a
    little-endian CRC-32C over everything before it. The parser is incremental;
    it is specified by what one more byte does, and proved to give the same
    results however the bytes are cut. */
module Packets {
  import opened Bytes
  import opened Crc
  import opened Seqs

  const MAGIC: byte := 0x81
  const HEADER_BYTES := 4
  const MIN_PACKET_BYTES := 8
  const MAX_PACKET_BYTES := 256
  const RETRANSMIT_FLAG: byte := 0x80
  const RESET_CRC_SEED: bv32 := 0xFFFF_FFFF

  const ASK_RESET: byte := 0x01
  const ASK_VERSION: byte := 0x02
  const ASK_STREAM_DATA: byte := 0x12

  datatype Packet = Packet(seq_: byte, opcode: byte, payload: seq<byte>)

  datatype Parsed = Valid(packet: Packet) | Invalid(seq_: byte) | ChecksumFail(seq_: byte)

  /** The opcode without the retransmit flag. */
  function BaseOpcode(opcode: byte): byte { opcode % 128 }

  /** `opcode |= RETRANSMIT_FLAG`. */
  function Flagged(opcode: byte): byte { BaseOpcode(opcode) + RETRANSMIT_FLAG }

  function PacketLen(b: byte): nat { if b == 0 then MAX_PACKET_BYTES else b }

  predicate Encodable(p: Packet) {
    |p.payload| <= MAX_PACKET_BYTES - MIN_PACKET_BYTES
  }

  function Body(p: Packet): seq<byte>
    requires Encodable(p)
  {
    [MAGIC, p.seq_, (MIN_PACKET_BYTES + |p.payload|) % 256, p.opcode] + p.payload
  }

  function Seal(body: seq<byte>, seed: bv32): seq<byte> {
    body + Le32(Crc32c(seed, body))
  }

  /** A packet's bytes. Over 256 of them there is no encoding: the length byte
      could not tell. */
  function Encode(p: Packet, seed: bv32): seq<byte>
    requires Encodable(p)
  {
    Seal(Body(p), seed)
  }

  /** The seed a packet is checked against: the raw opcode byte decides, so a
      retransmitted reset (0x81) is checked against the session. */
  function SeedFor(opcode: byte, session: bv32): bv32 {
    if opcode == ASK_RESET then RESET_CRC_SEED else session
  }

  function Verify(bytes: seq<byte>, session: bv32): Parsed
    requires |bytes| >= MIN_PACKET_BYTES
  {
    var body, crc := bytes[..|bytes| - 4], bytes[|bytes| - 4..];
    if Le32(Crc32c(SeedFor(body[3], session), body)) != crc then
      ChecksumFail(body[1])
    else
      Valid(Packet(body[1], body[3], body[HEADER_BYTES..]))
  }

  // ---- What one byte does ----

  datatype Fed = Fed(out: seq<Parsed>, buffer: seq<byte>)

  /** The buffers the parser keeps between calls: nothing, or an unfinished
      packet that starts with the magic byte and has a legal length if known. */
  predicate Unfinished(buffer: seq<byte>) {
    buffer != [] ==>
      && buffer[0] == MAGIC
      && (|buffer| >= MIN_PACKET_BYTES ==> MIN_PACKET_BYTES <= PacketLen(buffer[2]) && |buffer| < PacketLen(buffer[2]))
  }

  function Feed(buffer: seq<byte>, b: byte, session: bv32): Fed
  {
    var grown := buffer + [b];
    if buffer == [] then Fed([], if b == MAGIC then grown else [])
    else if |grown| < MIN_PACKET_BYTES then Fed([], grown)
    else if PacketLen(grown[2]) < MIN_PACKET_BYTES then Fed([Invalid(grown[1])], [])
    else if |grown| < PacketLen(grown[2]) then Fed([], grown)
    else Fed([Verify(grown, session)], [])
  }

  function FeedAll(buffer: seq<byte>, bytes: seq<byte>, session: bv32): Fed
    decreases |bytes|
  {
    if bytes == [] then Fed([], buffer)
    else
      var first := Feed(buffer, bytes[0], session);
      var rest := FeedAll(first.buffer, bytes[1..], session);
      Fed(first.out + rest.out, rest.buffer)
  }

  lemma {:induction false} FeedAppend(buffer: seq<byte>, x: seq<byte>, y: seq<byte>, session: bv32)
    ensures var f := FeedAll(buffer, x, session);
            var g := FeedAll(f.buffer, y, session);
            FeedAll(buffer, x + y, session) == Fed(f.out + g.out, g.buffer)
    decreases |x|
  {
    hide Feed;
    if x == [] {
      ConcatEmpty(y);
      ConcatEmpty(FeedAll(buffer, y, session).out);
    } else {
      TailOfConcat(x, y);
      var first := Feed(buffer, x[0], session);
      FeedAppend(first.buffer, x[1..], y, session);
      var f := FeedAll(first.buffer, x[1..], session);
      ConcatAssociative(first.out, f.out, FeedAll(f.buffer, y, session).out);
    }
  }

  function Flatten(chunks: seq<seq<byte>>): seq<byte>
    decreases |chunks|
  {
    if chunks == [] then [] else chunks[0] + Flatten(chunks[1..])
  }

  /** Pushing the pieces one after the other. */
  function PushChunks(buffer: seq<byte>, chunks: seq<seq<byte>>, session: bv32): Fed
    decreases |chunks|
  {
    if chunks == [] then Fed([], buffer)
    else
      var first := FeedAll(buffer, chunks[0], session);
      var rest := PushChunks(first.buffer, chunks[1..], session);
      Fed(first.out + rest.out, rest.buffer)
  }

  /** However a byte string is cut, the results and the final buffer are those
      of pushing it whole. */
  lemma {:induction false} ParsingIgnoresChunking(buffer: seq<byte>, chunks: seq<seq<byte>>, session: bv32)
    ensures PushChunks(buffer, chunks, session) == FeedAll(buffer, Flatten(chunks), session)
    decreases |chunks|
  {
    if chunks != [] {
      hide Feed;
      FeedAppend(buffer, chunks[0], Flatten(chunks[1..]), session);
      ParsingIgnoresChunking(FeedAll(buffer, chunks[0], session).buffer, chunks[1..], session);
    }
  }

  // ---- The parser itself ----

  lemma {:induction false} GarbageIsSkipped(garbage: seq<byte>, session: bv32)
    requires MAGIC !in garbage
    ensures FeedAll([], garbage, session) == Fed([], [])
    decreases |garbage|
  {
    if garbage != [] {
      GarbageIsSkipped(garbage[1..], session);
    }
  }

  /** Bytes short of the next decision only accumulate. */
  lemma {:induction false} Accumulate(buffer: seq<byte>, bytes: seq<byte>, session: bv32)
    requires Unfinished(buffer)
    requires buffer == [] ==> bytes != [] && bytes[0] == MAGIC
    requires if |buffer| < MIN_PACKET_BYTES then |buffer| + |bytes| < MIN_PACKET_BYTES
             else |buffer| + |bytes| < PacketLen(buffer[2])
    ensures Unfinished(buffer + bytes)
    ensures FeedAll(buffer, bytes, session) == Fed([], buffer + bytes)
    decreases |bytes|
  {
    hide Verify;
    if bytes == [] {
      ConcatEmpty(buffer);
    } else {
      var grown := buffer + [bytes[0]];
      assert Feed(buffer, bytes[0], session) == Fed([], grown);
      Accumulate(grown, bytes[1..], session);
      ConcatAssociative(buffer, [bytes[0]], bytes[1..]);
      SplitAt(bytes, 1);
      assert bytes[..1] == [bytes[0]];
    }
  }

  /** The bytes the parser reads towards before it decides anything. */
  function Want(buffer: seq<byte>): nat {
    if |buffer| < MIN_PACKET_BYTES then MIN_PACKET_BYTES else PacketLen(buffer[2])
  }

  /** What the parser makes of `all` once it has read towards `want` bytes. */
  function Round(all: seq<byte>, want: nat, session: bv32): Fed
    requires MIN_PACKET_BYTES <= want
  {
    if |all| < want then Fed([], all)
    else if PacketLen(all[2]) < MIN_PACKET_BYTES then Fed([Invalid(all[1])], [])
    else if |all| < PacketLen(all[2]) then Fed([], all)
    else Fed([Verify(all, session)], [])
  }

  /** All but the last byte accumulate, the last decides. */
  lemma OneRound(buffer: seq<byte>, bytes: seq<byte>, session: bv32)
    requires Unfinished(buffer)
    requires bytes != [] && (buffer == [] ==> bytes[0] == MAGIC)
    requires |buffer| + |bytes| <= Want(buffer)
    ensures FeedAll(buffer, bytes, session) == Round(buffer + bytes, Want(buffer), session)
  {
    var k := |bytes| - 1;
    var held := buffer + bytes[..k];
    SplitAt(bytes, k);
    assert bytes[k..] == [bytes[k]];
    if bytes[..k] == [] {
      ConcatEmpty(buffer);
      NothingFed(buffer, session);
    } else {
      Accumulate(buffer, bytes[..k], session);
    }
    hide Verify, FeedAll;
    FeedAppend(buffer, bytes[..k], bytes[k..], session);
    LastByte(held, bytes[k], session);
    ConcatAssociative(buffer, bytes[..k], bytes[k..]);
    ConcatEmpty(Feed(held, bytes[k], session).out);
  }

  /** One round after what has been read so far. */
  lemma NextRound(start: seq<byte>, done: seq<byte>, sofar: Fed, chunk: seq<byte>, session: bv32)
    requires FeedAll(start, done, session) == sofar
    requires Unfinished(sofar.buffer)
    requires chunk != [] && (sofar.buffer == [] ==> chunk[0] == MAGIC)
    requires |sofar.buffer| + |chunk| <= Want(sofar.buffer)
    ensures var r := Round(sofar.buffer + chunk, Want(sofar.buffer), session);
            FeedAll(start, done + chunk, session) == Fed(sofar.out + r.out, r.buffer)
  {
    hide Round, FeedAll, Unfinished;
    OneRound(sofar.buffer, chunk, session);
    FeedAppend(start, done, chunk, session);
  }

  lemma LastByte(held: seq<byte>, b: byte, session: bv32)
    ensures FeedAll(held, [b], session) == Feed(held, b, session)
  {
    hide Feed;
    var f := Feed(held, b, session);
    assert [b][1..] == [];
    assert f.out + [] == f.out;
  }

  function IndexOf(bytes: seq<byte>, b: byte): (i: nat)
    ensures i <= |bytes|
    ensures b !in bytes[..i]
    ensures i < |bytes| ==> bytes[i] == b
    decreases |bytes|
  {
    if bytes == [] || bytes[0] == b then 0
    else
      var i := 1 + IndexOf(bytes[1..], b);
      assert bytes[..i] == [bytes[0]] + bytes[1..][..i - 1];
      i
  }

  class Parser {
    var buffer: seq<byte>

    constructor ()
      ensures buffer == []
    {
      buffer := [];
    }

    method Reset()
      modifies this
      ensures buffer == []
    {
      buffer := [];
    }

    method Push(input: seq<byte>, session: bv32) returns (out: seq<Parsed>)
      requires Unfinished(buffer)
      modifies this
      ensures Unfinished(buffer)
      ensures Fed(out, buffer) == FeedAll(old(buffer), input, session)
    {
      hide Verify, FeedAll;
      out := [];
      var bytes := input;
      ghost var done: seq<byte> := [];
      NothingFed(buffer, session);
      ConcatEmpty(input);
      while bytes != []
        invariant Unfinished(buffer)
        invariant done + bytes == input
        invariant FeedAll(old(buffer), done, session) == Fed(out, buffer)
        decreases |bytes|
      {
        if buffer == [] {
          var start := IndexOf(bytes, MAGIC);
          Skip(old(buffer), done, Fed(out, buffer), bytes, start, session);
          done := done + bytes[..start];
          bytes := bytes[start..];
          if bytes == [] {
            break;
          }
        }
        var want := if |buffer| < MIN_PACKET_BYTES then MIN_PACKET_BYTES else PacketLen(buffer[2]);
        var take := if want - |buffer| < |bytes| then want - |buffer| else |bytes|;
        NextRound(old(buffer), done, Fed(out, buffer), bytes[..take], session);
        Reassociate(done, bytes, take);
        done := done + bytes[..take];
        buffer := buffer + bytes[..take];
        bytes := bytes[take..];
        ConcatEmpty(out);
        if |buffer| < want {
          break;
        }
        var total := PacketLen(buffer[2]);
        if total < MIN_PACKET_BYTES {
          out := out + [Invalid(buffer[1])];
          buffer := [];
          continue;
        }
        if |buffer| < total {
          continue;
        }
        out := out + [Verify(buffer, session)];
        buffer := [];
      }
      ConcatEmpty(done);
    }
  }

  lemma Reassociate(done: seq<byte>, bytes: seq<byte>, k: nat)
    requires k <= |bytes|
    ensures (done + bytes[..k]) + bytes[k..] == done + bytes
  {
    SplitAt(bytes, k);
    ConcatAssociative(done, bytes[..k], bytes[k..]);
  }

  lemma Skip(start: seq<byte>, done: seq<byte>, sofar: Fed, bytes: seq<byte>, k: nat, session: bv32)
    requires FeedAll(start, done, session) == sofar && sofar.buffer == []
    requires k <= |bytes| && MAGIC !in bytes[..k]
    ensures FeedAll(start, done + bytes[..k], session) == sofar
    ensures (done + bytes[..k]) + bytes[k..] == done + bytes
  {
    hide FeedAll;
    GarbageIsSkipped(bytes[..k], session);
    FeedAppend(start, done, bytes[..k], session);
    Reassociate(done, bytes, k);
    ConcatEmpty(sofar.out);
  }

  lemma NothingFed(buffer: seq<byte>, session: bv32)
    ensures FeedAll(buffer, [], session) == Fed([], buffer)
  {}

  // ---- Round trip ----

  /** A packet as its receiver in `session` expects it. */
  function Wire(p: Packet, session: bv32): seq<byte>
    requires Encodable(p)
  {
    Encode(p, SeedFor(p.opcode, session))
  }

  lemma VerifyEncoded(p: Packet, seed: bv32, session: bv32)
    requires Encodable(p)
    ensures |Encode(p, seed)| == MIN_PACKET_BYTES + |p.payload|
    ensures Verify(Encode(p, seed), session) ==
            if seed == SeedFor(p.opcode, session) then Valid(p) else ChecksumFail(p.seq_)
  {
    hide Crc32c, Le32;
    var body := Body(p);
    var bytes := Encode(p, seed);
    assert bytes[..|bytes| - 4] == body;
    assert bytes[|bytes| - 4..] == Le32(Crc32c(seed, body));
    assert body[HEADER_BYTES..] == p.payload;
    if seed != SeedFor(p.opcode, session) {
      SeedDeterminesCrc(seed, SeedFor(p.opcode, session), body);
      if Le32(Crc32c(SeedFor(p.opcode, session), body)) == Le32(Crc32c(seed, body)) {
        Le32Injective(Crc32c(SeedFor(p.opcode, session), body), Crc32c(seed, body));
      }
    }
  }

  /** A sealed packet, whatever its seed, is one result and leaves nothing. */
  lemma EncodedIsOneResult(p: Packet, seed: bv32, session: bv32)
    requires Encodable(p)
    ensures FeedAll([], Encode(p, seed), session) == Fed([Verify(Encode(p, seed), session)], [])
  {
    hide Verify, Crc32c, Le32, FeedAll, Feed;
    var bytes := Encode(p, seed);
    var head, tail := bytes[..MIN_PACKET_BYTES], bytes[MIN_PACKET_BYTES..];
    assert bytes == head + tail;
    assert PacketLen(bytes[2]) == |bytes|;
    OneRound([], head, session);
    assert [] + head == head;
    FeedAppend([], head, tail, session);
    if tail == [] {
      assert head == bytes;
      NothingFed([], session);
    } else {
      OneRound(head, tail, session);
    }
  }

  /** Garbage, then a packet. */
  datatype Item = Item(garbage: seq<byte>, packet: Packet)

  predicate Sendable(items: seq<Item>) {
    forall i | i in items :: MAGIC !in i.garbage && Encodable(i.packet)
  }

  function WireOf(items: seq<Item>, session: bv32): seq<byte>
    requires Sendable(items)
    decreases |items|
  {
    if items == [] then []
    else items[0].garbage + Wire(items[0].packet, session) + WireOf(items[1..], session)
  }

  function PacketsOf(items: seq<Item>): seq<Parsed>
    decreases |items|
  {
    if items == [] then [] else [Valid(items[0].packet)] + PacketsOf(items[1..])
  }

  /** Packets separated by garbage without the magic byte parse to exactly
      those packets, in order. */
  lemma {:induction false} WireParsesToItsPackets(items: seq<Item>, tail: seq<byte>, session: bv32)
    requires Sendable(items)
    requires MAGIC !in tail
    ensures FeedAll([], WireOf(items, session) + tail, session) == Fed(PacketsOf(items), [])
    decreases |items|
  {
    if items == [] {
      GarbageIsSkipped(tail, session);
      assert WireOf(items, session) + tail == tail;
    } else {
      hide Verify, FeedAll, Encode, Unfinished;
      var g, p := items[0].garbage, items[0].packet;
      var wire, rest := Wire(p, session), WireOf(items[1..], session) + tail;
      GarbageIsSkipped(g, session);
      EncodedIsOneResult(p, SeedFor(p.opcode, session), session);
      VerifyEncoded(p, SeedFor(p.opcode, session), session);
      WireParsesToItsPackets(items[1..], tail, session);
      FeedAppend([], wire, rest, session);
      FeedAppend([], g, wire + rest, session);
      ConcatAssociative(g + wire, WireOf(items[1..], session), tail);
      ConcatAssociative(g, wire, rest);
      ConcatEmpty(PacketsOf(items));
    }
  }

  /** A resent ASK_RESET carries the flag in its opcode, so its reset seed is
      checked against the session: it gets through exactly when they coincide. */
  lemma ResentResetIsRejected(p: Packet, session: bv32)
    requires Encodable(p) && p.opcode == Flagged(ASK_RESET)
    ensures FeedAll([], Encode(p, RESET_CRC_SEED), session).out ==
            [if session == RESET_CRC_SEED then Valid(p) else ChecksumFail(p.seq_)]
  {
    hide Verify, Crc32c, Le32, Feed;
    EncodedIsOneResult(p, RESET_CRC_SEED, session);
    VerifyEncoded(p, RESET_CRC_SEED, session);
  }

  // ---- Error detection ----

  /** `sent` was sealed for `session`; four consecutive bytes of its body arrive
      changed. The change gets through exactly when the four bytes' difference
      equals what the difference of the two seeds has become at that place. */
  lemma BurstAccepted(pre: seq<byte>, x: seq<byte>, y: seq<byte>, post: seq<byte>, session: bv32)
    requires |x| == |y| == 4
    ensures var sent, got := pre + x + post, pre + y + post;
            var seed, checked := SeedFor(sent[3], session), SeedFor(got[3], session);
            var bytes := got + Le32(Crc32c(seed, sent));
            && |bytes| >= MIN_PACKET_BYTES
            && (Verify(bytes, session).ChecksumFail? <==>
                  Xor(Quad(x), Quad(y)) != Shifts(Xor(seed, checked), 8 * |pre|))
  {
    hide Crc32c, Le32, Xor, Quad, Shifts, SeedFor;
    var sent, got := pre + x + post, pre + y + post;
    var seed, checked := SeedFor(sent[3], session), SeedFor(got[3], session);
    var bytes := got + Le32(Crc32c(seed, sent));
    assert bytes[..|bytes| - 4] == got && bytes[|bytes| - 4..] == Le32(Crc32c(seed, sent));
    BurstDifference(seed, checked, pre, x, y, post);
    if Le32(Crc32c(checked, got)) == Le32(Crc32c(seed, sent)) {
      Le32Injective(Crc32c(checked, got), Crc32c(seed, sent));
    }
  }

  /** As long as the change does not turn a reset into something else or
      something else into a reset, every such change is rejected. */
  lemma BurstRejected(pre: seq<byte>, x: seq<byte>, y: seq<byte>, post: seq<byte>, session: bv32)
    requires |x| == |y| == 4 && x != y
    requires ((pre + x + post)[3] == ASK_RESET) == ((pre + y + post)[3] == ASK_RESET)
    ensures var sent, got := pre + x + post, pre + y + post;
            var bytes := got + Le32(Crc32c(SeedFor(sent[3], session), sent));
            |bytes| >= MIN_PACKET_BYTES && Verify(bytes, session) == ChecksumFail(got[1])
  {
    hide Crc32c, Le32, Xor, Quad, Shifts;
    BurstAccepted(pre, x, y, post, session);
    var seed := SeedFor((pre + x + post)[3], session);
    XorSelf(seed);
    ShiftsOfZero(8 * |pre|);
    XorZero(Quad(x), Quad(y));
    QuadsDiffer(x, y);
    var sent, got := pre + x + post, pre + y + post;
    var bytes := got + Le32(Crc32c(seed, sent));
    assert bytes[..|bytes| - 4] == got;
  }

  /** The exception is real: in this session a version request with one bit
      pair flipped in its opcode passes as a reset. */
  lemma CorruptOpcodeCanPass(seq_: byte)
    ensures var session: bv32 := 0xFCFF_FFFF;
            var sent := Body(Packet(seq_, ASK_VERSION, []));
            var got := Body(Packet(seq_, ASK_RESET, []));
            var bytes := got + Le32(Crc32c(session, sent));
            |bytes| >= MIN_PACKET_BYTES && Verify(bytes, session) == Valid(Packet(seq_, ASK_RESET, []))
  {
    hide Crc32c, Le32, Word;
    var session: bv32 := 0xFCFF_FFFF;
    var x: seq<byte> := [MAGIC, seq_, 8, ASK_VERSION];
    var y: seq<byte> := [MAGIC, seq_, 8, ASK_RESET];
    var sent, got := Body(Packet(seq_, ASK_VERSION, [])), Body(Packet(seq_, ASK_RESET, []));
    assert [] + x + [] == x == sent;
    assert [] + y + [] == y == got;
    BurstAccepted([], x, y, [], session);
    ResetDifference(seq_);
    var bytes := got + Le32(Crc32c(session, sent));
    assert bytes[..|bytes| - 4] == got;
    assert got[HEADER_BYTES..] == [];
  }

  lemma ResetDifference(seq_: byte)
    ensures Xor(Quad([MAGIC, seq_, 8, ASK_VERSION]), Quad([MAGIC, seq_, 8, ASK_RESET])) == Xor(0xFCFF_FFFF,
        RESET_CRC_SEED)
  {
    HeaderWord(seq_, ASK_VERSION, 2);
    HeaderWord(seq_, ASK_RESET, 1);
    TopByteDifference(Word(MAGIC), Word(seq_), Word(8));
  }

  function Raised(m: bv32, s: bv32, e: bv32, o: bv32): bv32 {
    Xor(m, RaiseByte(Xor(s, RaiseByte(Xor(e, RaiseByte(o))))))
  }

  lemma HeaderWord(seq_: byte, opcode: byte, w: bv32)
    requires Word(opcode) == w
    ensures Quad([MAGIC, seq_, 8, opcode]) == Raised(Word(MAGIC), Word(seq_), Word(8), w)
  {
    RaisedZero(w);
    hide Xor, RaiseByte, Word;
    var x: seq<byte> := [MAGIC, seq_, 8, opcode];
    assert x[1..] == [seq_, 8, opcode] && x[1..][1..] == [8, opcode] && x[1..][1..][1..] == [opcode];
    assert Quad([opcode]) == Xor(w, RaiseByte(Quad([])));
    assert Quad([8, opcode]) == Xor(Word(8), RaiseByte(Quad([opcode])));
  }

  lemma RaisedZero(w: bv32)
    ensures Xor(w, RaiseByte(0)) == w
  {}

  lemma TopByteDifference(m: bv32, s: bv32, e: bv32)
    ensures Xor(Raised(m, s, e, 2), Raised(m, s, e, 1)) == Xor(0xFCFF_FFFF, RESET_CRC_SEED)
  {}
}
