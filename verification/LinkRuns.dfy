/** What an endpoint puts on the wire, over a whole life: requests, stream
    writes, ticks, acknowledgements, a changed packet size and new sessions in
    any order. What its peer must hear is told by a plain account of the packets
    sent, counted without wrapping, with the ticks since each last went out. */
module LinkRuns {
  import opened Bytes
  import opened Links
  import opened Packets
  import opened Seqs

  datatype Op =
    | Request(opcode: byte, payload: seq<byte>)
    | Write(data: seq<byte>)
    | Tick
    | Ack(s: byte)
    | Resize(bytes: nat)
    | Restart(session: bv32)

  /** Everything but a request that no packet can hold. */
  predicate Able(op: Op) {
    op.Request? ==> |op.payload| <= MAX_PACKET_BYTES - MIN_PACKET_BYTES
  }

  // ---- The endpoint ----

  datatype Endpoint = Endpoint(tx: Tx, session: bv32)

  /** The endpoint after one operation, as its methods leave it. */
  function Did(e: Endpoint, op: Op): Endpoint
    requires ValidTx(e.tx)
  {
    match op
    case Request(opcode, payload) => e.(tx := Pushed(e.tx, opcode, payload, SeedFor(opcode, e.session)))
    case Write(data) => e.(tx := StreamSent(e.tx, e.session, data))
    case Tick => e.(tx := Ticked(e.tx))
    case Ack(s) => e.(tx := Acked(e.tx, s))
    case Resize(bytes) => e.(tx := e.tx.(maxPacketBytes := Clamped(bytes)))
    case Restart(session) => Endpoint(FreshTx(e.tx.maxPacketBytes), session)
  }

  /** The bytes it returns. */
  function Wired(e: Endpoint, op: Op): seq<byte>
    requires ValidTx(e.tx) && Able(op)
  {
    match op
    case Request(opcode, payload) => Wire(NextPacket(e.tx, opcode, payload), e.session)
    case Write(data) =>
      StreamPacketsEncodable(e.tx, e.session, data);
      Sealed(StreamPackets(e.tx, e.session, data), e.session)
    case Tick =>
      ResentEncodable(e.tx.unacked, NextTick(e.tx.tick));
      SealedPending(Resent(e.tx.unacked, NextTick(e.tx.tick)))
    case _ => []
  }

  // ---- The account ----

  /** A packet as first sent, and the ticks since it last went out. */
  datatype Owed = Owed(packet: Packet, age: nat)

  /** The session; the packet size; how many packets and stream bytes it has
      sent; those not acknowledged. */
  datatype Said = Said(session: bv32, size: nat, packets: nat, bytes: nat, owed: seq<Owed>)

  /** The stream bytes of one packet: all but magic, number, length, opcode, a
      two-byte offset and a four-byte checksum. */
  function Room(said: Said): int { said.size - 10 }

  function Pieces(said: Said, data: seq<byte>): nat
    requires Room(said) > 0
  {
    (|data| + Room(said) - 1) / Room(said)
  }

  /** Packet `k` of a write: numbered on from the last, its bytes preceded by
      their place in the stream, low byte first. */
  function Piece(said: Said, data: seq<byte>, k: nat): Packet
    requires Room(said) > 0 && k < Pieces(said, data)
  {
    var from := k * Room(said);
    PieceStarts(Room(said), |data|, k);
    var to := if |data| - from < Room(said) then |data| else from + Room(said);
    var place := (said.bytes + from) % 0x1_0000;
    Packet((said.packets + k) % 256, 0x12, [place % 256, place / 256] + data[from..to])
  }

  lemma PieceStarts(room: nat, n: nat, k: nat)
    requires room > 0 && k < (n + room - 1) / room
    ensures k * room < n
  {
    var pieces := (n + room - 1) / room;
    assert pieces * room <= n + room - 1;
    Times(k + 1, pieces, room);
    assert (k + 1) * room == k * room + room;
  }

  lemma Times(a: nat, b: nat, c: nat)
    requires a <= b
    ensures a * c <= b * c
  {}

  function Pieced(said: Said, data: seq<byte>): seq<Packet>
    requires Room(said) > 0
  {
    seq(Pieces(said, data), k requires 0 <= k < Pieces(said, data) => Piece(said, data, k))
  }

  function Fresh(packets: seq<Packet>): (r: seq<Owed>)
    ensures |r| == |packets|
  {
    seq(|packets|, k requires 0 <= k < |packets| => Owed(packets[k], 0))
  }

  /** A tick ages everything; what reaches two goes out again. */
  function Older(owed: seq<Owed>): (r: seq<Owed>)
    ensures |r| == |owed|
  {
    seq(|owed|, k requires 0 <= k < |owed| => owed[k].(age := if owed[k].age >= 1 then 0 else owed[k].age + 1))
  }

  function Without(owed: seq<Owed>, s: byte): seq<Owed>
    decreases |owed|
  {
    if owed == [] then []
    else if owed[0].packet.seq_ == s then Without(owed[1..], s)
    else [owed[0]] + Without(owed[1..], s)
  }

  function Account(said: Said, op: Op): Said
    requires Room(said) > 0
  {
    match op
    case Request(opcode, payload) =>
      said.(packets := said.packets + 1,
            owed := said.owed + [Owed(Packet(said.packets % 256, opcode, payload), 0)])
    case Write(data) =>
      said.(packets := said.packets + Pieces(said, data), bytes := said.bytes + |data|,
            owed := said.owed + Fresh(Pieced(said, data)))
    case Tick => said.(owed := Older(said.owed))
    case Ack(s) => said.(owed := Without(said.owed, s))
    case Resize(bytes) => said.(size := if bytes < 11 then 11 else if bytes > 256 then 256 else bytes)
    case Restart(session) => Said(session, said.size, 0, 0, [])
  }

  /** What a peer in the same session makes of a packet sent again: the same
      packet with the opcode's top bit set, or, for a reset, a checksum failure,
      the reset's seed being looked for only under the plain opcode. */
  function Again(p: Packet, session: bv32): Parsed {
    if p.opcode == 0x01 && session != 0xFFFF_FFFF then ChecksumFail(p.seq_)
    else Valid(p.(opcode := p.opcode % 128 + 128))
  }

  function AllAgain(owed: seq<Owed>, session: bv32): seq<Parsed>
    decreases |owed|
  {
    if owed == [] then []
    else (if owed[0].age >= 1 then [Again(owed[0].packet, session)] else []) + AllAgain(owed[1..], session)
  }

  /** What a peer in the same session must make of the bytes an operation
      returns. */
  function Heard(said: Said, op: Op): seq<Parsed>
    requires Room(said) > 0
  {
    match op
    case Request(opcode, payload) => [Valid(Packet(said.packets % 256, opcode, payload))]
    case Write(data) => Valids(Pieced(said, data))
    case Tick => AllAgain(said.owed, said.session)
    case _ => []
  }

  function Valids(packets: seq<Packet>): seq<Parsed> {
    seq(|packets|, k requires 0 <= k < |packets| => Valid(packets[k]))
  }

  // ---- The endpoint keeps to the account ----

  /** A packet still to be acknowledged, and the account of it. */
  predicate Tracks(p: Pending, o: Owed, tick: u32, session: bv32) {
    && p.packet.seq_ == o.packet.seq_ && p.packet.payload == o.packet.payload && Encodable(o.packet)
    && (p.packet.opcode == o.packet.opcode || p.packet.opcode == Flagged(o.packet.opcode))
    && p.crcSeed == SeedFor(o.packet.opcode, session)
    && o.age <= 1 && (tick - p.sentTick) % 0x1_0000_0000 == o.age
  }

  predicate AllTrack(unacked: seq<Pending>, owed: seq<Owed>, tick: u32, session: bv32) {
    |unacked| == |owed| && forall i :: 0 <= i < |owed| ==> Tracks(unacked[i], owed[i], tick, session)
  }

  predicate Keeps(e: Endpoint, said: Said) {
    && ValidTx(e.tx) && e.session == said.session && e.tx.maxPacketBytes == said.size
    && e.tx.nextSeq == said.packets % 256 && e.tx.streamOffset == said.bytes % 0x1_0000
    && AllTrack(e.tx.unacked, said.owed, e.tx.tick, e.session)
  }

  lemma AllTrackConcat(u: seq<Pending>, o: seq<Owed>, u': seq<Pending>, o': seq<Owed>, tick: u32, session: bv32)
    requires AllTrack(u, o, tick, session) && AllTrack(u', o', tick, session)
    ensures AllTrack(u + u', o + o', tick, session)
  {
    hide Tracks;
  }

  // ---- One write ----

  /** The state a write leaves and the packets it makes, told directly. */
  lemma {:induction false} WriteTold(e: Endpoint, said: Said, data: seq<byte>)
    requires ValidTx(e.tx) && e.tx.maxPacketBytes == said.size
    requires e.tx.nextSeq == said.packets % 256 && e.tx.streamOffset == said.bytes % 0x1_0000
    ensures StreamPackets(e.tx, e.session, data) == Pieced(said, data)
    ensures var after := StreamSent(e.tx, e.session, data);
      && after.nextSeq == (said.packets + Pieces(said, data)) % 256
      && after.streamOffset == (said.bytes + |data|) % 0x1_0000
      && after.unacked == e.tx.unacked + AsPending(Pieced(said, data), e.session, e.tx.tick)
      && after.tick == e.tx.tick && after.maxPacketBytes == e.tx.maxPacketBytes
    decreases |data|
  {
    hide Piece, ValidTx;
    if data == [] {
      KnownRoom(e.tx, said);
      NoPieces(said);
    } else {
      KnownRoom(e.tx, said);
      FirstPiece(e.tx, e.session, said, data);
      var n := Min(|data|, Room(said));
      var rest := said.(packets := said.packets + 1, bytes := said.bytes + n);
      var tx := ChunkPushed(e.tx, e.session, data);
      WriteTold(e.(tx := tx), rest, data[n..]);
      PiecesOneMore(said, data);
      var first := Piece(said, data, 0);
      hide ChunkPushed, ChunkPayload, Pieced;
      AsPendingCons(first, Pieced(rest, data[n..]), e.session, e.tx.tick);
      ConcatAssociative(e.tx.unacked, [Pending(first, e.session, e.tx.tick)],
          AsPending(Pieced(rest, data[n..]), e.session, e.tx.tick));
    }
  }

  function AsPending(packets: seq<Packet>, seed: bv32, tick: u32): (r: seq<Pending>)
    ensures |r| == |packets|
  {
    seq(|packets|, k requires 0 <= k < |packets| => Pending(packets[k], seed, tick))
  }

  lemma AsPendingCons(first: Packet, rest: seq<Packet>, seed: bv32, tick: u32)
    ensures AsPending([first] + rest, seed, tick) == [Pending(first, seed, tick)] + AsPending(rest, seed, tick)
  {}

  lemma KnownRoom(tx: Tx, said: Said)
    requires ValidTx(tx) && tx.maxPacketBytes == said.size
    ensures Room(said) > 0
  {}

  lemma NoPieces(said: Said)
    requires Room(said) > 0
    ensures Pieces(said, []) == 0 && Pieced(said, []) == []
  {
    DivUnique(Room(said) - 1, Room(said), 0, Room(said) - 1);
  }

  lemma FirstPiece(tx: Tx, session: bv32, said: Said, data: seq<byte>)
    requires ValidTx(tx) && tx.maxPacketBytes == said.size && data != []
    requires tx.nextSeq == said.packets % 256 && tx.streamOffset == said.bytes % 0x1_0000
    ensures var n, tx' := Min(|data|, Room(said)), ChunkPushed(tx, session, data);
      && 0 < Pieces(said, data) && ValidTx(tx') && tx'.maxPacketBytes == said.size && tx'.tick == tx.tick
      && tx'.nextSeq == (said.packets + 1) % 256 && tx'.streamOffset == (said.bytes + n) % 0x1_0000
      && tx'.unacked == tx.unacked + [Pending(Piece(said, data, 0), session, tx.tick)]
      && StreamPackets(tx, session, data) == [Piece(said, data, 0)] + StreamPackets(tx', session, data[n..])
      && StreamSent(tx, session, data) == StreamSent(tx', session, data[n..])
  {
    hide Piece, Pieces, ChunkPayload;
    ChunkPushedValid(tx, session, data);
    SomePiece(said, data);
    FirstPieceIs(tx, said, data);
    OneMoreByte(said.packets);
  }

  lemma SomePiece(said: Said, data: seq<byte>)
    requires Room(said) > 0 && data != []
    ensures 0 < Pieces(said, data)
  {
    OneChunkMore(|data|, Room(said));
  }

  lemma OneMoreByte(n: nat)
    ensures Next(n % 256) == (n + 1) % 256
  {}

  lemma FirstPieceIs(tx: Tx, said: Said, data: seq<byte>)
    requires ValidTx(tx) && tx.maxPacketBytes == said.size && 0 < Pieces(said, data)
    requires tx.nextSeq == said.packets % 256 && tx.streamOffset == said.bytes % 0x1_0000
    ensures Piece(said, data, 0) == NextPacket(tx, ASK_STREAM_DATA, ChunkPayload(tx, data))
  {
    assert 0 * Room(said) == 0;
    assert data[0..Min(|data|, Room(said))] == data[..Min(|data|, Room(said))];
  }

  lemma PiecesOneMore(said: Said, data: seq<byte>)
    requires Room(said) > 0 && data != []
    ensures var n := Min(|data|, Room(said));
      var rest := said.(packets := said.packets + 1, bytes := said.bytes + n);
      && 0 < Pieces(said, data) == 1 + Pieces(rest, data[n..])
      && Pieced(said, data) == [Piece(said, data, 0)] + Pieced(rest, data[n..])
  {
    hide Piece;
    OneChunkMore(|data|, Room(said));
    var n := Min(|data|, Room(said));
    var rest := said.(packets := said.packets + 1, bytes := said.bytes + n);
    forall k: nat | k < Pieces(rest, data[n..])
      ensures Piece(said, data, k + 1) == Piece(rest, data[n..], k)
    {
      LaterPiece(said, data, k);
    }
  }

  lemma LaterPiece(said: Said, data: seq<byte>, k: nat)
    requires Room(said) > 0 && data != []
    requires var n := Min(|data|, Room(said));
      k < Pieces(said.(packets := said.packets + 1, bytes := said.bytes + n), data[n..])
    ensures var n := Min(|data|, Room(said));
      var rest := said.(packets := said.packets + 1, bytes := said.bytes + n);
      k + 1 < Pieces(said, data) && Piece(said, data, k + 1) == Piece(rest, data[n..], k)
  {
    var n := Min(|data|, Room(said));
    OneChunkMore(|data|, Room(said));
    PieceStarts(Room(said), |data| - n, k);
    assert (k + 1) * Room(said) == k * Room(said) + Room(said);
    TimesIsNatural(k, Room(said));
    PieceStarts(Room(said), |data|, k + 1);
    var from := k * Room(said);
    var to := if |data| - n - from < Room(said) then |data| - n else from + Room(said);
    assert data[n..][from..to] == data[n + from..n + to];
  }

  lemma TimesIsNatural(a: nat, b: nat)
    ensures a * b >= 0
  {}

  lemma WriteKeeps(e: Endpoint, said: Said, data: seq<byte>)
    requires Keeps(e, said)
    ensures Keeps(Did(e, Write(data)), Account(said, Write(data)))
  {
    hide Piece, Tracks, StreamSent, StreamPackets;
    WriteTold(e, said, data);
    StreamPacketsEncodable(e.tx, e.session, data);
    PiecedOpcodes(said, data);
    FreshTrack(Pieced(said, data), e.tx.tick, e.session);
    hide Pieced, Fresh, AsPending, AllTrack;
    AllTrackConcat(e.tx.unacked, said.owed, AsPending(Pieced(said, data), e.session, e.tx.tick),
        Fresh(Pieced(said, data)), e.tx.tick, e.session);
  }

  lemma FreshTrack(packets: seq<Packet>, tick: u32, session: bv32)
    requires AllEncodable(packets) && forall i :: 0 <= i < |packets| ==> packets[i].opcode == ASK_STREAM_DATA
    ensures AllTrack(AsPending(packets, session, tick), Fresh(packets), tick, session)
  {}

  // ---- The other operations ----

  lemma TickTracks(p: Pending, o: Owed, tick: u32, session: bv32)
    requires Tracks(p, o, tick, session)
    ensures Due(p, NextTick(tick)) <==> o.age == 1
    ensures Tracks(Resend(p, NextTick(tick)), o.(age := if o.age >= 1 then 0 else o.age + 1), NextTick(tick), session)
  {
    hide NextTick, Flagged, SeedFor, Encodable;
    OneTickOlder(tick, p.sentTick, o.age);
    FlaggedTwice(o.packet.opcode);
  }

  lemma OneTickOlder(tick: u32, sent: u32, age: nat)
    requires age <= 1 && (tick - sent) % 0x1_0000_0000 == age
    ensures (NextTick(tick) - sent) % 0x1_0000_0000 == age + 1
    ensures (NextTick(tick) - NextTick(tick)) % 0x1_0000_0000 == 0
  {}

  lemma FlaggedTwice(opcode: byte)
    ensures Flagged(Flagged(opcode)) == Flagged(opcode)
  {}

  lemma TickKeeps(e: Endpoint, said: Said)
    requires Keeps(e, said)
    ensures Keeps(Did(e, Tick), Account(said, Tick))
  {
    hide Tracks, Resend;
    var now := NextTick(e.tx.tick);
    ResendAllAt(e.tx.unacked, now);
    ResentEncodable(e.tx.unacked, now);
    forall i | 0 <= i < |said.owed|
      ensures Tracks(Resend(e.tx.unacked[i], now), Older(said.owed)[i], now, e.session)
    {
      TickTracks(e.tx.unacked[i], said.owed[i], e.tx.tick, e.session);
    }
  }

  lemma {:induction false} AckTracks(u: seq<Pending>, owed: seq<Owed>, s: byte, tick: u32, session: bv32)
    requires AllTrack(u, owed, tick, session)
    ensures AllTrack(Retained(u, s), Without(owed, s), tick, session)
    decreases |u|
  {
    hide Tracks;
    if u != [] {
      AckTracks(u[1..], owed[1..], s, tick, session);
      TracksSameNumber(u[0], owed[0], tick, session);
    }
  }

  lemma TracksSameNumber(p: Pending, o: Owed, tick: u32, session: bv32)
    requires Tracks(p, o, tick, session)
    ensures p.packet.seq_ == o.packet.seq_ && Encodable(p.packet)
  {}

  lemma TrackedIsEncodable(u: seq<Pending>, owed: seq<Owed>, tick: u32, session: bv32)
    requires AllTrack(u, owed, tick, session)
    ensures PendingEncodable(u)
  {
    hide Tracks, Encodable;
    forall i | 0 <= i < |u|
      ensures Encodable(u[i].packet)
    {
      TracksSameNumber(u[i], owed[i], tick, session);
    }
  }

  lemma AccountKept(e: Endpoint, said: Said, op: Op)
    requires Keeps(e, said) && Able(op)
    ensures Keeps(Did(e, op), Account(said, op))
  {
    hide Tracks, AllTrack, StreamSent, Retained, Without, Older, Pieces, Pieced, Fresh, Ticked;
    match op
    case Request(opcode, payload) =>
      var packet := Packet(said.packets % 256, opcode, payload);
      RequestTracks(packet, e.tx.tick, e.session);
      AllTrackConcat(e.tx.unacked, said.owed, [Pending(packet, SeedFor(opcode, e.session), e.tx.tick)],
          [Owed(packet, 0)], e.tx.tick, e.session);
    case Write(data) => WriteKeeps(e, said, data);
    case Tick => TickKeeps(e, said);
    case Ack(s) =>
      AckTracks(e.tx.unacked, said.owed, s, e.tx.tick, e.session);
      TrackedIsEncodable(Retained(e.tx.unacked, s), Without(said.owed, s), e.tx.tick, e.session);
    case Resize(_) =>
    case Restart(session) => NothingTracks(session);
  }

  lemma RequestTracks(packet: Packet, tick: u32, session: bv32)
    requires Encodable(packet)
    ensures AllTrack([Pending(packet, SeedFor(packet.opcode, session), tick)], [Owed(packet, 0)], tick, session)
  {}

  lemma NothingTracks(session: bv32)
    ensures AllTrack([], [], 0, session)
  {}

  // ---- What gets through ----

  /** A packet sealed for the session, or for a reset, is heard as the account
      says. */
  lemma AgainIsHeard(p: Pending, o: Owed, tick: u32, session: bv32)
    requires Tracks(p, o, tick, session)
    ensures var again := Resend(p, NextTick(tick)).packet.(opcode := Flagged(p.packet.opcode));
      Encodable(again)
        && FeedAll([], Encode(again, p.crcSeed), session) == Fed([Again(o.packet, session)], [])
  {
    hide FeedAll, Encode, Verify;
    var again := Resend(p, NextTick(tick)).packet.(opcode := Flagged(p.packet.opcode));
    EncodedIsOneResult(again, p.crcSeed, session);
    VerifyEncoded(again, p.crcSeed, session);
  }

  lemma {:induction false} ResentIsHeard(u: seq<Pending>, owed: seq<Owed>, tick: u32, session: bv32)
    requires AllTrack(u, owed, tick, session)
    ensures PendingEncodable(Resent(u, NextTick(tick)))
    ensures FeedAll([], SealedPending(Resent(u, NextTick(tick))), session) == Fed(AllAgain(owed, session), [])
    decreases |u|
  {
    hide Tracks, FeedAll, Encode, Again, Resend, Due;
    var now := NextTick(tick);
    TrackedIsEncodable(u, owed, tick, session);
    ResentEncodable(u, now);
    if u == [] {
      NothingFed([], session);
    } else {
      ResentIsHeard(u[1..], owed[1..], tick, session);
      FirstIsHeard(u, owed[0], tick, session);
    }
  }

  lemma FirstIsHeard(u: seq<Pending>, o: Owed, tick: u32, session: bv32)
    requires u != [] && PendingEncodable(u) && Tracks(u[0], o, tick, session)
    ensures var now := NextTick(tick);
      && PendingEncodable(Resent(u, now)) && PendingEncodable(Resent(u[1..], now))
      && var rest := FeedAll([], SealedPending(Resent(u[1..], now)), session);
         FeedAll([], SealedPending(Resent(u, now)), session)
           == Fed((if o.age >= 1 then [Again(o.packet, session)] else []) + rest.out, rest.buffer)
  {
    hide FeedAll, Encode, Again, SealedPending;
    var now := NextTick(tick);
    ResentEncodable(u, now);
    ResentEncodable(u[1..], now);
    TickTracks(u[0], o, tick, session);
    var later := Resent(u[1..], now);
    if o.age == 1 {
      AgainIsHeard(u[0], o, tick, session);
      var p := Resend(u[0], now);
      SealedCons(p, later);
      FeedAppend([], Encode(p.packet, p.crcSeed), SealedPending(later), session);
    } else {
      ConcatEmpty(later);
      ConcatEmpty(FeedAll([], SealedPending(later), session).out);
    }
  }

  lemma SealedCons(p: Pending, rest: seq<Pending>)
    requires Encodable(p.packet) && PendingEncodable(rest)
    ensures PendingEncodable([p] + rest)
    ensures SealedPending([p] + rest) == Encode(p.packet, p.crcSeed) + SealedPending(rest)
  {
    hide Encode, Encodable;
    var all := [p] + rest;
    assert all[1..] == rest;
    forall i | 0 <= i < |all|
      ensures Encodable(all[i].packet)
    {}
  }

  lemma {:induction false} WriteIsHeard(packets: seq<Packet>, session: bv32)
    requires AllEncodable(packets)
    requires forall i :: 0 <= i < |packets| ==> packets[i].opcode == ASK_STREAM_DATA
    ensures FeedAll([], Sealed(packets, session), session) == Fed(Valids(packets), [])
    decreases |packets|
  {
    hide FeedAll, Encode, Verify;
    if packets == [] {
      NothingFed([], session);
    } else {
      WriteIsHeard(packets[1..], session);
      EncodedIsOneResult(packets[0], session, session);
      VerifyEncoded(packets[0], session, session);
      FeedAppend([], Encode(packets[0], session), Sealed(packets[1..], session), session);
      assert Valids(packets) == [Valid(packets[0])] + Valids(packets[1..]);
    }
  }

  lemma OperationIsHeard(e: Endpoint, said: Said, op: Op)
    requires Keeps(e, said) && Able(op)
    ensures FeedAll([], Wired(e, op), e.session) == Fed(Heard(said, op), [])
  {
    hide FeedAll, Encode, Verify, AllTrack, StreamPackets, Sealed, Resent, SealedPending, AllAgain, Valids, Piece;
    match op
    case Request(opcode, payload) =>
      var packet := NextPacket(e.tx, opcode, payload);
      EncodedIsOneResult(packet, SeedFor(opcode, e.session), e.session);
      VerifyEncoded(packet, SeedFor(opcode, e.session), e.session);
    case Write(data) =>
      WriteTold(e, said, data);
      StreamPacketsEncodable(e.tx, e.session, data);
      PiecedOpcodes(said, data);
      WriteIsHeard(Pieced(said, data), e.session);
    case Tick => ResentIsHeard(e.tx.unacked, said.owed, e.tx.tick, e.session);
    case Ack(_) => NothingFed([], e.session);
    case Resize(_) => NothingFed([], e.session);
    case Restart(_) => NothingFed([], e.session);
  }

  lemma PiecedOpcodes(said: Said, data: seq<byte>)
    requires Room(said) > 0
    ensures forall i :: 0 <= i < |Pieced(said, data)| ==> Pieced(said, data)[i].opcode == ASK_STREAM_DATA
  {}

  // ---- Whole lives ----

  predicate AllAble(ops: seq<Op>) {
    forall i :: 0 <= i < |ops| ==> Able(ops[i])
  }

  function Lived(e: Endpoint, ops: seq<Op>): Endpoint
    requires ValidTx(e.tx) && AllAble(ops)
    ensures ValidTx(Lived(e, ops).tx)
    decreases |ops|
  {
    if ops == [] then e
    else
      DidIsValid(e, ops[0]);
      Lived(Did(e, ops[0]), ops[1..])
  }

  lemma DidIsValid(e: Endpoint, op: Op)
    requires ValidTx(e.tx) && Able(op)
    ensures ValidTx(Did(e, op).tx)
  {
    hide StreamSent, ResendAll, Retained;
    match op
    case Write(data) => StreamPacketsEncodable(e.tx, e.session, data);
    case Tick => ResentEncodable(e.tx.unacked, NextTick(e.tx.tick));
    case Ack(s) => RetainedEncodable(e.tx.unacked, s);
    case _ =>
  }

  lemma {:induction false} RetainedEncodable(u: seq<Pending>, s: byte)
    requires PendingEncodable(u)
    ensures PendingEncodable(Retained(u, s))
    decreases |u|
  {
    if u != [] {
      RetainedEncodable(u[1..], s);
    }
  }

  function Told(said: Said, ops: seq<Op>): Said
    requires Room(said) > 0
    ensures Room(Told(said, ops)) > 0
    decreases |ops|
  {
    if ops == [] then said else Told(Account(said, ops[0]), ops[1..])
  }

  lemma {:induction false} LifeKeeps(e: Endpoint, said: Said, ops: seq<Op>)
    requires Keeps(e, said) && AllAble(ops)
    ensures Keeps(Lived(e, ops), Told(said, ops))
    decreases |ops|
  {
    hide Keeps, Did, Account;
    if ops != [] {
      KeepsIsValid(e, said);
      AccountKept(e, said, ops[0]);
      DidIsValid(e, ops[0]);
      LifeKeeps(Did(e, ops[0]), Account(said, ops[0]), ops[1..]);
    }
  }

  lemma KeepsIsValid(e: Endpoint, said: Said)
    requires Keeps(e, said)
    ensures ValidTx(e.tx) && Room(said) > 0
  {}

  /** Whatever a fresh endpoint has done, over any number of sessions, the bytes
      of its next operation, parsed in its session, are exactly what the account
      of its life says: what is sent arrives as sent, with the numbers and stream
      places counted since the session began; a tick sends again exactly what
      went out two ticks before and was not acknowledged, in order, and all of it
      gets through but a reset. */
  lemma EveryOperationIsHeard(size: nat, session: bv32, ops: seq<Op>, op: Op)
    requires STREAM_OVERHEAD < size <= MAX_PACKET_BYTES && AllAble(ops) && Able(op)
    ensures var e := Lived(Endpoint(FreshTx(size), session), ops);
      var said := Told(Said(session, size, 0, 0, []), ops);
      && e.session == said.session
      && FeedAll([], Wired(e, op), e.session) == Fed(Heard(said, op), [])
  {
    hide FeedAll, Wired, Heard, Lived, Told;
    LifeKeeps(Endpoint(FreshTx(size), session), Said(session, size, 0, 0, []), ops);
    OperationIsHeard(Lived(Endpoint(FreshTx(size), session), ops), Told(Said(session, size, 0, 0, []), ops), op);
  }
}
