/** One reliable link endpoint: 8-bit sequence numbers, retransmission until
    acknowledged, and a receive window of 128 that releases stream bytes in
    sequence order. The class is proved against the value functions below;
    what two endpoints achieve together is proved about those functions. */
module Links {
  import opened Bytes
  import opened Packets
  import opened Seqs
  import opened Wrappers

  const WINDOW := 128
  const STREAM_OVERHEAD := 10
  const RETRANSMIT_AFTER_TICKS := 2

  /** What a sequence number stands for: a control request or stream bytes. */
  type Slot = Option<seq<byte>>

  /** An unacknowledged packet, kept unsealed, and the seed to seal it with. */
  datatype Pending = Pending(packet: Packet, crcSeed: bv32, sentTick: u32)

  datatype Tx = Tx(nextSeq: byte, unacked: seq<Pending>, streamOffset: u16, maxPacketBytes: nat, tick: u32)

  datatype Rx = Rx(recvHead: byte, received: map<byte, Slot>, ready: seq<byte>)

  /** `wrapping_add(1)` and `wrapping_sub`. */
  function Next(s: byte): byte { (s + 1) % 256 }

  function Sub(s: byte, t: byte): byte { (s - t) % 256 }

  predicate ValidTx(tx: Tx) {
    && STREAM_OVERHEAD < tx.maxPacketBytes <= MAX_PACKET_BYTES
    && PendingEncodable(tx.unacked)
  }

  predicate AllEncodable(packets: seq<Packet>) {
    forall i :: 0 <= i < |packets| ==> Encodable(packets[i])
  }

  predicate PendingEncodable(pending: seq<Pending>) {
    forall i :: 0 <= i < |pending| ==> Encodable(pending[i].packet)
  }

  // ---- Sending ----

  function FreshTx(maxPacketBytes: nat): Tx { Tx(0, [], 0, maxPacketBytes, 0) }

  function NextPacket(tx: Tx, opcode: byte, payload: seq<byte>): Packet {
    Packet(tx.nextSeq, opcode, payload)
  }

  function Pushed(tx: Tx, opcode: byte, payload: seq<byte>, seed: bv32): Tx {
    tx.(nextSeq := Next(tx.nextSeq),
        unacked := tx.unacked + [Pending(NextPacket(tx, opcode, payload), seed, tx.tick)])
  }

  function ChunkSize(tx: Tx): nat
    requires ValidTx(tx)
  {
    tx.maxPacketBytes - STREAM_OVERHEAD
  }

  function Min(a: nat, b: nat): nat { if a < b then a else b }

  /** `clamp`, to sizes that leave room for a stream byte. */
  function Clamped(bytes: nat): nat {
    if bytes <= STREAM_OVERHEAD then STREAM_OVERHEAD + 1
    else if bytes > MAX_PACKET_BYTES then MAX_PACKET_BYTES else bytes
  }

  /** The first chunk of `data`, prefixed with its stream offset. */
  function ChunkPayload(tx: Tx, data: seq<byte>): seq<byte>
    requires ValidTx(tx)
  {
    Le16(tx.streamOffset) + data[..Min(|data|, ChunkSize(tx))]
  }

  function ChunkPushed(tx: Tx, session: bv32, data: seq<byte>): Tx
    requires ValidTx(tx)
  {
    var n := Min(|data|, ChunkSize(tx));
    Pushed(tx, ASK_STREAM_DATA, ChunkPayload(tx, data), session)
      .(streamOffset := (tx.streamOffset + n) % 0x1_0000)
  }

  lemma ChunkPushedValid(tx: Tx, session: bv32, data: seq<byte>)
    requires ValidTx(tx)
    ensures ValidTx(ChunkPushed(tx, session, data))
    ensures Encodable(NextPacket(tx, ASK_STREAM_DATA, ChunkPayload(tx, data)))
  {}

  /** `send_stream`: the state after it and the packets it makes. */
  function StreamPackets(tx: Tx, session: bv32, data: seq<byte>): seq<Packet>
    requires ValidTx(tx)
    decreases |data|
  {
    if data == [] then []
    else
      ChunkPushedValid(tx, session, data);
      [NextPacket(tx, ASK_STREAM_DATA, ChunkPayload(tx, data))]
        + StreamPackets(ChunkPushed(tx, session, data), session, data[Min(|data|, ChunkSize(tx))..])
  }

  function StreamSent(tx: Tx, session: bv32, data: seq<byte>): Tx
    requires ValidTx(tx)
    decreases |data|
  {
    if data == [] then tx
    else
      ChunkPushedValid(tx, session, data);
      StreamSent(ChunkPushed(tx, session, data), session, data[Min(|data|, ChunkSize(tx))..])
  }

  function PacketsFor(tx: Tx, bytes: nat): nat
    requires ValidTx(tx)
  {
    (bytes + ChunkSize(tx) - 1) / ChunkSize(tx)
  }

  /** Sealing packets one after the other into wire bytes. */
  function Sealed(packets: seq<Packet>, seed: bv32): seq<byte>
    requires AllEncodable(packets)
    decreases |packets|
  {
    if packets == [] then [] else Encode(packets[0], seed) + Sealed(packets[1..], seed)
  }

  lemma {:induction false} StreamPacketsEncodable(tx: Tx, session: bv32, data: seq<byte>)
    requires ValidTx(tx)
    ensures AllEncodable(StreamPackets(tx, session, data))
    ensures ValidTx(StreamSent(tx, session, data))
    decreases |data|
  {
    if data != [] {
      ChunkPushedValid(tx, session, data);
      StreamPacketsEncodable(ChunkPushed(tx, session, data), session, data[Min(|data|, ChunkSize(tx))..]);
    }
  }

  // ---- Acknowledging and retransmitting ----

  /** `retain(|p| p.seq != seq)`. */
  function Retained(unacked: seq<Pending>, s: byte): seq<Pending>
    decreases |unacked|
  {
    if unacked == [] then []
    else (if unacked[0].packet.seq_ != s then [unacked[0]] else []) + Retained(unacked[1..], s)
  }

  function Acked(tx: Tx, s: byte): Tx {
    tx.(unacked := Retained(tx.unacked, s))
  }

  predicate Due(p: Pending, tick: u32) {
    (tick - p.sentTick) % 0x1_0000_0000 >= RETRANSMIT_AFTER_TICKS
  }

  function Resend(p: Pending, tick: u32): Pending {
    if Due(p, tick) then p.(packet := p.packet.(opcode := Flagged(p.packet.opcode)), sentTick := tick) else p
  }

  function ResendAll(unacked: seq<Pending>, tick: u32): (r: seq<Pending>)
    ensures |r| == |unacked|
    decreases |unacked|
  {
    if unacked == [] then [] else [Resend(unacked[0], tick)] + ResendAll(unacked[1..], tick)
  }

  /** The packets a tick puts on the wire again. */
  function Resent(unacked: seq<Pending>, tick: u32): seq<Pending>
    decreases |unacked|
  {
    if unacked == [] then []
    else (if Due(unacked[0], tick) then [Resend(unacked[0], tick)] else []) + Resent(unacked[1..], tick)
  }

  function NextTick(tick: u32): u32 { (tick + 1) % 0x1_0000_0000 }

  function Ticked(tx: Tx): Tx {
    tx.(tick := NextTick(tx.tick), unacked := ResendAll(tx.unacked, NextTick(tx.tick)))
  }

  function SealedPending(pending: seq<Pending>): seq<byte>
    requires PendingEncodable(pending)
    decreases |pending|
  {
    if pending == [] then []
    else Encode(pending[0].packet, pending[0].crcSeed) + SealedPending(pending[1..])
  }

  lemma {:induction false} ResentEncodable(unacked: seq<Pending>, tick: u32)
    requires PendingEncodable(unacked)
    ensures PendingEncodable(ResendAll(unacked, tick))
    ensures PendingEncodable(Resent(unacked, tick))
    decreases |unacked|
  {
    if unacked != [] {
      ResentEncodable(unacked[1..], tick);
    }
  }

  // ---- Receiving ----

  function FreshRx(): Rx { Rx(0, map[], []) }

  predicate InWindow(rx: Rx, s: byte) {
    Sub(s, rx.recvHead) < WINDOW
  }

  /** `advance`: release the slots at the head, in order, as far as they go. */
  function Advanced(rx: Rx): Rx
    decreases |rx.received|
  {
    if rx.recvHead !in rx.received then rx
    else Advanced(Released(rx))
  }

  function Released(rx: Rx): (r: Rx)
    requires rx.recvHead in rx.received
    ensures |r.received| < |rx.received|
  {
    var slot := rx.received[rx.recvHead];
    RemoveOne(rx.received, rx.recvHead);
    Rx(Next(rx.recvHead),
       rx.received - {rx.recvHead},
       if slot.Some? then rx.ready + slot.value else rx.ready)
  }

  lemma RemoveOne<K, V>(m: map<K, V>, k: K)
    requires k in m
    ensures |m - {k}| < |m|
  {
    assert (m - {k}).Keys == m.Keys - {k};
    assert |m.Keys| == |m|;
    assert |(m - {k}).Keys| == |m - {k}|;
  }

  function Stored(rx: Rx, s: byte, slot: Slot): Rx {
    Advanced(rx.(received := rx.received[s := slot]))
  }

  function ControlAccepted(rx: Rx, s: byte): Rx {
    if InWindow(rx, s) then Stored(rx, s, None) else rx
  }

  function StreamAccepted(rx: Rx, s: byte, payload: seq<byte>): Rx {
    if |payload| >= 2 && InWindow(rx, s) then Stored(rx, s, Some(payload[2..])) else rx
  }

  /** Whether stream data is to be acknowledged. */
  predicate Acks(rx: Rx, s: byte, payload: seq<byte>) {
    |payload| >= 2 && (InWindow(rx, s) || Sub(s, rx.recvHead) / 128 % 2 == 1)
  }

  /** So stream data is acknowledged whenever it is well formed, also when it is
      too far ahead to be stored: outside the window the number is always 128 or
      more past the head, and its top bit set. */
  lemma TooFarAheadIsAckedToo(rx: Rx, s: byte, payload: seq<byte>)
    ensures Acks(rx, s, payload) <==> |payload| >= 2
    ensures !InWindow(rx, s) ==> StreamAccepted(rx, s, payload) == rx
  {}

  // ---- The endpoint ----

  class Link {
    var session: bv32
    var nextSeq: byte
    var unacked: seq<Pending>
    var streamOffset: u16
    var maxPacketBytes: nat
    var tick: u32
    var recvHead: byte
    var received: map<byte, Slot>
    var ready: seq<byte>

    function Sender(): Tx
      reads this
    {
      Tx(nextSeq, unacked, streamOffset, maxPacketBytes, tick)
    }

    function Receiver(): Rx
      reads this
    {
      Rx(recvHead, received, ready)
    }

    constructor (session: bv32, maxPacketBytes: nat)
      ensures this.session == session
      ensures Sender() == FreshTx(maxPacketBytes) && Receiver() == FreshRx()
    {
      this.session := session;
      this.nextSeq := 0;
      this.unacked := [];
      this.streamOffset := 0;
      this.maxPacketBytes := maxPacketBytes;
      this.tick := 0;
      this.recvHead := 0;
      this.received := map[];
      this.ready := [];
    }

    /** A new session: both sequence spaces and the stream restart at 0. */
    method Reset(session: bv32)
      modifies this
      ensures this.session == session
      ensures Sender() == FreshTx(old(maxPacketBytes)) && Receiver() == FreshRx()
    {
      this.session := session;
      nextSeq, unacked, streamOffset, tick := 0, [], 0, 0;
      recvHead, received, ready := 0, map[], [];
    }

    method SetMaxPacketBytes(bytes: nat)
      modifies this`maxPacketBytes
      ensures STREAM_OVERHEAD < maxPacketBytes <= MAX_PACKET_BYTES
      ensures maxPacketBytes == Clamped(bytes)
    {
      maxPacketBytes := if bytes <= STREAM_OVERHEAD then STREAM_OVERHEAD + 1
                        else if bytes > MAX_PACKET_BYTES then MAX_PACKET_BYTES else bytes;
    }

    method PushReliable(opcode: byte, payload: seq<byte>, seed: bv32) returns (wire: seq<byte>)
      requires |payload| <= MAX_PACKET_BYTES - MIN_PACKET_BYTES
      modifies this`nextSeq, this`unacked
      ensures Sender() == Pushed(old(Sender()), opcode, payload, seed)
      ensures wire == Encode(NextPacket(old(Sender()), opcode, payload), seed)
    {
      var packet := Packet(nextSeq, opcode, payload);
      nextSeq := Next(nextSeq);
      wire := Encode(packet, seed);
      unacked := unacked + [Pending(packet, seed, tick)];
    }

    method SendRequest(opcode: byte, payload: seq<byte>) returns (wire: seq<byte>)
      requires |payload| <= MAX_PACKET_BYTES - MIN_PACKET_BYTES
      modifies this`nextSeq, this`unacked
      ensures var seed := SeedFor(opcode, session);
              && Sender() == Pushed(old(Sender()), opcode, payload, seed)
              && wire == Wire(NextPacket(old(Sender()), opcode, payload), session)
    {
      var seed := if opcode == ASK_RESET then RESET_CRC_SEED else session;
      wire := PushReliable(opcode, payload, seed);
    }

    method SendStream(input: seq<byte>) returns (wire: seq<byte>)
      requires ValidTx(Sender())
      modifies this`nextSeq, this`unacked, this`streamOffset
      ensures ValidTx(Sender())
      ensures Sender() == StreamSent(old(Sender()), session, input)
      ensures var packets := StreamPackets(old(Sender()), session, input);
              && AllEncodable(packets)
              && wire == Sealed(packets, session)
    {
      hide Encode;
      wire := [];
      var data := input;
      ghost var start := Sender();
      StreamPacketsEncodable(start, session, input);
      ConcatEmpty(Sealed(StreamPackets(start, session, input), session));
      while data != []
        invariant ValidTx(Sender())
        invariant StreamSent(Sender(), session, data) == StreamSent(start, session, input)
        invariant AllEncodable(StreamPackets(Sender(), session, data))
        invariant wire + Sealed(StreamPackets(Sender(), session, data), session)
               == Sealed(StreamPackets(start, session, input), session)
        decreases |data|
      {
        ghost var before := Sender();
        ChunkPushedValid(before, session, data);
        var chunk := Min(|data|, maxPacketBytes - STREAM_OVERHEAD);
        var payload := Le16(streamOffset) + data[..chunk];
        streamOffset := (streamOffset + chunk) % 0x1_0000;
        var bytes := PushReliable(ASK_STREAM_DATA, payload, session);
        assert Sender() == ChunkPushed(before, session, data);
        ghost var packets := StreamPackets(before, session, data);
        assert packets[1..] == StreamPackets(Sender(), session, data[chunk..]);
        ConcatAssociative(wire, bytes, Sealed(packets[1..], session));
        StreamPacketsEncodable(Sender(), session, data[chunk..]);
        wire := wire + bytes;
        data := data[chunk..];
      }
      ConcatEmpty(wire);
    }

    method Acknowledge(s: byte) returns (known: bool)
      modifies this`unacked
      ensures Sender() == Acked(old(Sender()), s)
      ensures known == (|unacked| != |old(unacked)|)
    {
      var kept := [];
      var i := 0;
      ConcatEmpty(Retained(unacked, s));
      while i < |unacked|
        invariant 0 <= i <= |unacked| && unacked == old(unacked)
        invariant kept + Retained(unacked[i..], s) == Retained(unacked, s)
      {
        assert unacked[i..][1..] == unacked[i + 1..];
        if unacked[i].packet.seq_ != s {
          ConcatAssociative(kept, [unacked[i]], Retained(unacked[i + 1..], s));
          kept := kept + [unacked[i]];
        } else {
          ConcatEmpty(Retained(unacked[i + 1..], s));
        }
        i := i + 1;
      }
      ConcatEmpty(kept);
      known := |unacked| != |kept|;
      unacked := kept;
    }

    method Tick() returns (wire: seq<byte>)
      requires ValidTx(Sender())
      modifies this`tick, this`unacked
      ensures ValidTx(Sender())
      ensures Sender() == Ticked(old(Sender()))
      ensures var resent := Resent(old(unacked), tick);
              && PendingEncodable(resent)
              && wire == SealedPending(resent)
    {
      hide Encode, Resend, Resent, ResendAll, SealedPending;
      tick := NextTick(tick);
      wire := [];
      ghost var now, was := tick, unacked;
      ResentEncodable(was, now);
      ResendAllAt(was, now);
      ConcatEmpty(SealedPending(Resent(was, now)));
      assert was[0..] == was;
      var i := 0;
      while i < |unacked|
        invariant 0 <= i <= |unacked| == |was| && tick == now
        invariant forall k :: 0 <= k < i ==> unacked[k] == Resend(was[k], now)
        invariant forall k :: i <= k < |was| ==> unacked[k] == was[k]
        invariant PendingEncodable(Resent(was[i..], now))
        invariant wire + SealedPending(Resent(was[i..], now)) == SealedPending(Resent(was, now))
      {
        TickRound(was, i, now, wire);
        var pending := unacked[i];
        if (tick - pending.sentTick) % 0x1_0000_0000 >= RETRANSMIT_AFTER_TICKS {
          pending := Pending(pending.packet.(opcode := Flagged(pending.packet.opcode)), pending.crcSeed, tick);
          wire := wire + Encode(pending.packet, pending.crcSeed);
          unacked := unacked[i := pending];
        }
        i := i + 1;
      }
      assert was[i..] == [];
      NothingResent(now);
      ConcatEmpty(wire);
      assert unacked == ResendAll(was, now);
    }

    method AcceptControl(s: byte)
      modifies this`recvHead, this`received, this`ready
      ensures Receiver() == ControlAccepted(old(Receiver()), s)
    {
      if (s - recvHead) % 256 < WINDOW {
        received := received[s := None];
        Advance();
      }
    }

    method AcceptStream(s: byte, payload: seq<byte>) returns (ack: bool)
      modifies this`recvHead, this`received, this`ready
      ensures Receiver() == StreamAccepted(old(Receiver()), s, payload)
      ensures ack == Acks(old(Receiver()), s, payload)
    {
      if |payload| < 2 {
        return false;
      }
      if !((s - recvHead) % 256 < WINDOW) {
        return Sub(s, recvHead) / 128 % 2 == 1;
      }
      received := received[s := Some(payload[2..])];
      Advance();
      return true;
    }

    method Advance()
      modifies this`recvHead, this`received, this`ready
      ensures Receiver() == Advanced(old(Receiver()))
    {
      while recvHead in received
        invariant Advanced(Receiver()) == Advanced(old(Receiver()))
        decreases |received|
      {
        ghost var before := Receiver();
        var slot := received[recvHead];
        RemoveOne(received, recvHead);
        received := received - {recvHead};
        if slot.Some? {
          ready := ready + slot.value;
        }
        recvHead := Next(recvHead);
        assert Receiver() == Released(before);
      }
    }

    /** Stream bytes delivered in order since the last call. */
    method TakeStream() returns (bytes: seq<byte>)
      modifies this`ready
      ensures bytes == old(ready) && ready == []
    {
      bytes := ready;
      ready := [];
    }
  }

  lemma NothingResent(now: u32)
    ensures Resent([], now) == [] && SealedPending([]) == []
  {}

  lemma {:induction false} ResendAllAt(was: seq<Pending>, now: u32)
    ensures |ResendAll(was, now)| == |was|
    ensures forall k :: 0 <= k < |was| ==> ResendAll(was, now)[k] == Resend(was[k], now)
    decreases |was|
  {
    hide Resend;
    if was != [] {
      ResendAllAt(was[1..], now);
    }
  }

  /** One turn of the retransmit loop: what it puts on the wire, if anything. */
  lemma TickRound(was: seq<Pending>, i: nat, now: u32, wire: seq<byte>)
    requires i < |was| && PendingEncodable(was)
    ensures var again := Pending(was[i].packet.(opcode := Flagged(was[i].packet.opcode)), was[i].crcSeed, now);
            var due := (now - was[i].sentTick) % 0x1_0000_0000 >= RETRANSMIT_AFTER_TICKS;
            && Resend(was[i], now) == (if due then again else was[i])
            && PendingEncodable(Resent(was[i..], now)) && PendingEncodable(Resent(was[i + 1..], now))
            && (if due then wire + Encode(again.packet, again.crcSeed) else wire)
                + SealedPending(Resent(was[i + 1..], now))
               == wire + SealedPending(Resent(was[i..], now))
  {
    hide Encode;
    var again := Resend(was[i], now);
    assert was[i..][1..] == was[i + 1..];
    ResentEncodable(was[i..], now);
    ResentEncodable(was[i + 1..], now);
    var rest := Resent(was[i + 1..], now);
    if Due(was[i], now) {
      assert ([again] + rest)[1..] == rest;
      ConcatAssociative(wire, Encode(again.packet, again.crcSeed), SealedPending(rest));
    } else {
      ConcatEmpty(rest);
    }
  }

  // ---- What splitting keeps ----

  /** The slot a packet occupies at its receiver. */
  function SlotOf(p: Packet): Slot {
    if BaseOpcode(p.opcode) == ASK_STREAM_DATA && |p.payload| >= 2 then Some(p.payload[2..]) else None
  }

  function SlotBytes(slots: seq<Slot>): seq<byte>
    decreases |slots|
  {
    if slots == [] then []
    else (if slots[0].Some? then slots[0].value else []) + SlotBytes(slots[1..])
  }

  function SlotsOf(packets: seq<Packet>): seq<Slot>
    decreases |packets|
  {
    if packets == [] then [] else [SlotOf(packets[0])] + SlotsOf(packets[1..])
  }

  /** Splitting loses nothing, and makes exactly as many packets as announced. */
  lemma {:induction false} SplitCarriesEverything(tx: Tx, session: bv32, data: seq<byte>)
    requires ValidTx(tx)
    ensures SlotBytes(SlotsOf(StreamPackets(tx, session, data))) == data
    ensures |StreamPackets(tx, session, data)| == PacketsFor(tx, |data|)
    decreases |data|
  {
    hide PacketsFor;
    if data == [] {
      NoPackets(tx);
    } else {
      FirstChunk(tx, session, data);
      OnePacketMore(tx, ChunkPushed(tx, session, data), |data|);
      hide StreamPackets, ChunkPushed, ChunkPayload, SlotOf, ValidTx;
      var n := Min(|data|, ChunkSize(tx));
      SplitCarriesEverything(ChunkPushed(tx, session, data), session, data[n..]);
      SplitAt(data, n);
    }
  }

  lemma FirstChunk(tx: Tx, session: bv32, data: seq<byte>)
    requires ValidTx(tx) && data != []
    ensures var n := Min(|data|, ChunkSize(tx));
            var tx' := ChunkPushed(tx, session, data);
            var packets := StreamPackets(tx, session, data);
            && ValidTx(tx') && ChunkSize(tx') == ChunkSize(tx)
            && packets != [] && packets[1..] == StreamPackets(tx', session, data[n..])
            && SlotOf(packets[0]) == Some(data[..n])
            && packets[0].seq_ == tx.nextSeq && tx'.nextSeq == Next(tx.nextSeq)
            && packets[0].opcode == ASK_STREAM_DATA && |packets[0].payload| >= 2
  {
    ChunkPushedValid(tx, session, data);
    var n := Min(|data|, ChunkSize(tx));
    var first := NextPacket(tx, ASK_STREAM_DATA, ChunkPayload(tx, data));
    var rest := StreamPackets(ChunkPushed(tx, session, data), session, data[n..]);
    assert StreamPackets(tx, session, data) == [first] + rest;
    assert ([first] + rest)[1..] == rest;
    assert first.payload[2..] == data[..n];
  }

  lemma NoPackets(tx: Tx)
    requires ValidTx(tx)
    ensures PacketsFor(tx, 0) == 0
  {
    DivUnique(ChunkSize(tx) - 1, ChunkSize(tx), 0, ChunkSize(tx) - 1);
  }

  lemma OnePacketMore(tx: Tx, tx': Tx, bytes: nat)
    requires ValidTx(tx) && ValidTx(tx') && ChunkSize(tx) == ChunkSize(tx')
    requires bytes > 0
    ensures PacketsFor(tx, bytes) == 1 + PacketsFor(tx', bytes - Min(bytes, ChunkSize(tx)))
  {
    OneChunkMore(bytes, ChunkSize(tx));
  }

  lemma OneChunkMore(bytes: nat, chunk: nat)
    requires bytes > 0 && chunk > 0
    ensures (bytes + chunk - 1) / chunk == 1 + (bytes - Min(bytes, chunk) + chunk - 1) / chunk
  {
    hide Min;
    if bytes <= chunk {
      MinIs(bytes, chunk);
      DivUnique(bytes + chunk - 1, chunk, 1, bytes - 1);
      DivUnique(chunk - 1, chunk, 0, chunk - 1);
    } else {
      MinIs(bytes, chunk);
      DivStep(bytes - 1, chunk);
    }
  }

  lemma MinIs(a: nat, b: nat)
    ensures Min(a, b) == if a <= b then a else b
  {}

  lemma DivStep(x: nat, d: nat)
    requires d > 0
    ensures (x + d) / d == x / d + 1
  {
    var q, r := x / d, x % d;
    assert x == q * d + r;
    DivUnique(x + d, d, q + 1, r);
  }

  lemma DivUnique(a: nat, d: nat, q: nat, r: nat)
    requires 0 <= r < d
    requires a == q * d + r
    ensures a / d == q
  {
    var k: int := a / d - q;
    assert a == (a / d) * d + a % d;
    assert k * d == r - a % d;
    ProductBound(k, d);
  }

  lemma ProductBound(k: int, d: int)
    requires d > 0
    ensures k >= 1 ==> k * d >= d
    ensures k <= -1 ==> k * d <= -d
  {
  }
}
