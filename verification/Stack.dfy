/** The whole PABotBase2 stack: messages, encoded, split into packets, sealed,
    parsed, accepted in any order inside one window, and read back. */
module Stack {
  import opened Bytes
  import opened Seqs
  import opened Packets
  import opened Links
  import opened SlidingWindow
  import opened WindowDrain
  import opened WindowRuns
  import opened Messages
  import opened Wrappers

  function AcceptAll(rx: Rx, arrivals: seq<Packet>): Rx
    decreases |arrivals|
  {
    if arrivals == [] then rx
    else AcceptAll(StreamAccepted(rx, arrivals[0].seq_, arrivals[0].payload), arrivals[1..])
  }

  /** A stream packet that carries slot `n` of `sent`. */
  predicate StreamCarries(p: Packet, n: nat, sent: seq<Slot>) {
    Carries(p, n, sent) && IsStream(p)
  }

  /** One arrival, new or repeated, within the window. */
  lemma OneArrival(rx: Rx, sent: seq<Slot>, head: nat, held: set<nat>, p: Packet, n: nat) returns (head': nat,
      held': set<nat>)
    requires RxRel(rx, sent, head, held, rx.ready)
    requires head !in held && StreamCarries(p, n, sent)
    requires |sent| <= n + WINDOW && |sent| <= head + WINDOW
    ensures var rx' := StreamAccepted(rx, p.seq_, p.payload);
            && RxRel(rx', sent, head', held', rx'.ready)
            && head' !in held'
            && head <= head'
            && forall k: nat :: (k < head' || k in held') <==> (k < head || k in held || k == n)
  {
    hide SeqOf, Advanced, ReleasedTo;
    Nearby(rx, sent, head, held, n);
    if head <= n {
      var d := Dir(FreshTx(0), rx, [], [], sent, [], head, held, []);
      ConcatEmpty(rx.ready);
      StoreAndRelease(d, n, p.seq_);
      var r := ReleasedTo(head, held + {n});
      head', held' := r.0, r.1;
      ConcatEmpty(StreamAccepted(rx, p.seq_, p.payload).ready);
    } else {
      head', held' := head, held;
    }
  }

  lemma Nearby(rx: Rx, sent: seq<Slot>, head: nat, held: set<nat>, n: nat)
    requires RxRel(rx, sent, head, held, rx.ready) && n < |sent|
    requires |sent| <= n + WINDOW && |sent| <= head + WINDOW
    ensures InWindow(rx, SeqOf(n)) <==> head <= n
  {
    WindowIsExact(head, n, rx);
  }

  lemma {:induction false} ArriveInAnyOrder(rx: Rx, sent: seq<Slot>, head: nat, held: set<nat>,
      arrivals: seq<Packet>, numbers: seq<nat>)
    returns (head': nat, held': set<nat>)
    requires RxRel(rx, sent, head, held, rx.ready) && head !in held
    requires |numbers| == |arrivals| && |sent| <= head + WINDOW
    requires forall i :: 0 <= i < |arrivals| ==>
      StreamCarries(arrivals[i], numbers[i], sent) && |sent| <= numbers[i] + WINDOW
    ensures var rx' := AcceptAll(rx, arrivals);
            && RxRel(rx', sent, head', held', rx'.ready)
            && head' !in held'
            && forall k: nat :: (k < head' || k in held') <==> (k < head || k in held || k in numbers)
    decreases |arrivals|
  {
    hide RxRel, StreamCarries, StreamAccepted;
    if arrivals == [] {
      head', held' := head, held;
    } else {
      var h, s := OneArrival(rx, sent, head, held, arrivals[0], numbers[0]);
      head', held' := ArriveInAnyOrder(StreamAccepted(rx, arrivals[0].seq_, arrivals[0].payload), sent, h, s,
          arrivals[1..], numbers[1..]);
      SplitAt(numbers, 1);
      assert numbers[..1] == [numbers[0]];
    }
  }

  // ---- The packets of one stream write ----

  lemma {:induction false} StreamPacketAt(tx: Tx, session: bv32, data: seq<byte>, i: nat)
    requires ValidTx(tx) && i < |StreamPackets(tx, session, data)|
    ensures var p := StreamPackets(tx, session, data)[i];
            && p.seq_ == SeqOf(tx.nextSeq + i)
            && p.opcode == ASK_STREAM_DATA && |p.payload| >= 2
    decreases i
  {
    hide ChunkPushed, ChunkPayload, ValidTx, ChunkSize, SlotOf;
    FirstChunk(tx, session, data);
    if i > 0 {
      StreamPacketAt(ChunkPushed(tx, session, data), session, data[Min(|data|, ChunkSize(tx))..], i - 1);
      NextNumber(tx.nextSeq, i - 1);
    }
  }

  lemma NextNumber(s: byte, i: nat)
    ensures SeqOf(Next(s) + i) == SeqOf(s + i + 1)
  {}

  lemma {:induction false} SlotsAt(packets: seq<Packet>)
    ensures |SlotsOf(packets)| == |packets|
    ensures forall i :: 0 <= i < |packets| ==> SlotsOf(packets)[i] == SlotOf(packets[i])
    decreases |packets|
  {
    hide SlotOf;
    if packets != [] {
      SlotsAt(packets[1..]);
    }
  }

  function Nothing(n: nat): (r: seq<Slot>)
    ensures |r| == n
  {
    seq(n, _ => None)
  }

  lemma {:induction false} SlotBytesAfterNothing(n: nat, slots: seq<Slot>)
    ensures SlotBytes(Nothing(n) + slots) == SlotBytes(slots)
    ensures SlotBytes(Nothing(n)) == []
    decreases n
  {
    if n == 0 {
      ConcatEmpty(slots);
    } else {
      TailOfConcat(Nothing(n), slots);
      assert Nothing(n)[1..] == Nothing(n - 1);
      SlotBytesAfterNothing(n - 1, slots);
      ConcatEmpty(SlotBytes(slots));
    }
  }

  /** The numbers of the packets that arrive. */
  function NumbersOf(arrivals: seq<Packet>, packets: seq<Packet>, base: nat): (r: seq<nat>)
    requires forall i :: 0 <= i < |arrivals| ==> arrivals[i] in packets
    ensures |r| == |arrivals|
    ensures forall i :: 0 <= i < |r| ==> base <= r[i] < base + |packets| && packets[r[i] - base] == arrivals[i]
    decreases |arrivals|
  {
    if arrivals == [] then []
    else [base + Position(arrivals[0], packets)] + NumbersOf(arrivals[1..], packets, base)
  }

  function Position(p: Packet, packets: seq<Packet>): (i: nat)
    requires p in packets
    ensures i < |packets| && packets[i] == p
    decreases |packets|
  {
    if packets[0] == p then 0 else 1 + Position(p, packets[1..])
  }

  /** A quiet receiver in step with the sender gets every byte, in order, from
      the packets of one write arriving in any order and any number of times. */
  lemma OneWriteArrives(tx: Tx, session: bv32, data: seq<byte>, arrivals: seq<Packet>)
    requires ValidTx(tx) && |StreamPackets(tx, session, data)| <= WINDOW
    requires forall p :: p in arrivals <==> p in StreamPackets(tx, session, data)
    ensures AcceptAll(Rx(tx.nextSeq, map[], []), arrivals).ready == data
  {
    hide StreamPackets, RxRel, SlotBytes, SlotsOf, AcceptAll, Position, NumbersOf, Nothing, StreamCarries;
    var packets, base := StreamPackets(tx, session, data), tx.nextSeq;
    var rx, sent := Rx(base, map[], []), Nothing(base) + SlotsOf(packets);
    SplitCarriesEverything(tx, session, data);
    SlotBytesAfterNothing(base, SlotsOf(packets));
    SlotsAt(packets);
    QuietReceiver(base, SlotsOf(packets));
    var numbers := NumbersOf(arrivals, packets, base);
    forall i | 0 <= i < |arrivals|
      ensures StreamCarries(arrivals[i], numbers[i], sent) && |sent| <= numbers[i] + WINDOW
    {
      ArrivalCarries(tx, session, data, numbers[i] - base);
    }
    var head, held := ArriveInAnyOrder(rx, sent, base, {}, arrivals, numbers);
    forall k: nat | k < |sent|
      ensures k < head || k in held
    {
      if base <= k {
        EveryNumberArrives(tx, session, data, arrivals, k - base);
      }
    }
    Released(AcceptAll(rx, arrivals), sent, head, held);
  }

  lemma QuietReceiver(base: byte, slots: seq<Slot>)
    ensures RxRel(Rx(base, map[], []), Nothing(base) + slots, base, {}, [])
  {
    hide SlotBytes, AbsAt, Nothing;
    SlotBytesAfterNothing(base, slots);
    FrontOf(Nothing(base), slots);
  }

  lemma FrontOf<T>(a: seq<T>, b: seq<T>)
    ensures (a + b)[..|a|] == a
  {}

  lemma ArrivalCarries(tx: Tx, session: bv32, data: seq<byte>, i: nat)
    requires ValidTx(tx) && i < |StreamPackets(tx, session, data)|
    ensures var packets := StreamPackets(tx, session, data);
            StreamCarries(packets[i], tx.nextSeq + i, Nothing(tx.nextSeq) + SlotsOf(packets))
  {
    hide StreamPackets;
    StreamPacketAt(tx, session, data, i);
    SlotsAt(StreamPackets(tx, session, data));
  }

  lemma EveryNumberArrives(tx: Tx, session: bv32, data: seq<byte>, arrivals: seq<Packet>, i: nat)
    requires ValidTx(tx) && i < |StreamPackets(tx, session, data)| <= WINDOW
    requires forall p :: p in arrivals <==> p in StreamPackets(tx, session, data)
    ensures tx.nextSeq + i in NumbersOf(arrivals, StreamPackets(tx, session, data), tx.nextSeq)
  {
    hide StreamPackets, NumbersOf, Position;
    var packets := StreamPackets(tx, session, data);
    assert packets[i] in arrivals;
    var k :| 0 <= k < |arrivals| && arrivals[k] == packets[i];
    var numbers := NumbersOf(arrivals, packets, tx.nextSeq);
    var j := numbers[k] - tx.nextSeq;
    StreamPacketAt(tx, session, data, i);
    StreamPacketAt(tx, session, data, j);
    SameSeqSameNumber(tx.nextSeq + i, tx.nextSeq + j);
    assert numbers[k] == tx.nextSeq + i;
  }

  lemma Released(rx: Rx, sent: seq<Slot>, head: nat, held: set<nat>)
    requires RxRel(rx, sent, head, held, rx.ready) && head !in held
    requires forall k: nat :: k < |sent| ==> k < head || k in held
    ensures rx.ready == SlotBytes(sent)
  {
    assert head == |sent|;
    assert sent[..head] == sent;
  }

  // ---- Sealing and parsing ----

  function AllValid(packets: seq<Packet>): seq<Parsed>
    decreases |packets|
  {
    if packets == [] then [] else [Valid(packets[0])] + AllValid(packets[1..])
  }

  lemma {:induction false} SealedParses(packets: seq<Packet>, session: bv32)
    requires AllEncodable(packets)
    requires forall i :: 0 <= i < |packets| ==> packets[i].opcode != ASK_RESET
    ensures FeedAll([], Sealed(packets, session), session) == Fed(AllValid(packets), [])
    decreases |packets|
  {
    hide FeedAll, Encode, Verify;
    if packets == [] {
      NothingFed([], session);
    } else {
      SealedParses(packets[1..], session);
      EncodedIsOneResult(packets[0], session, session);
      VerifyEncoded(packets[0], session, session);
      FeedAppend([], Encode(packets[0], session), Sealed(packets[1..], session), session);
    }
  }

  // ---- The theorems ----

  /** Messages whose bodies fit, written as one stream of at most a window of
      packets: the announced number of packets, each parsed back from the wire;
      and, whatever the order and repetition of their arrival and however the
      released bytes are cut, exactly the same messages. */
  lemma WholeStackRoundTrip(tx: Tx, session: bv32, ms: seq<Message>, arrivals: seq<Packet>, chunks: seq<seq<byte>>)
    requires ValidTx(tx) && Messages.Fits(ms)
    requires PacketsFor(tx, |EncodedAll(ms)|) <= WINDOW
    requires forall p :: p in arrivals <==> p in StreamPackets(tx, session, EncodedAll(ms))
    requires Flatten(chunks) == AcceptAll(Rx(tx.nextSeq, map[], []), arrivals).ready
    ensures var packets := StreamPackets(tx, session, EncodedAll(ms));
            && |packets| == PacketsFor(tx, |EncodedAll(ms)|)
            && AllEncodable(packets)
            && FeedAll([], Sealed(packets, session), session) == Fed(AllValid(packets), [])
    ensures PushMessages([], chunks) == Read(ms, [])
  {
    hide StreamPackets, FeedAll, AcceptAll, PacketsFor, ReadAll, Sound, Partial, Total;
    var data := EncodedAll(ms);
    var packets := StreamPackets(tx, session, data);
    SplitCarriesEverything(tx, session, data);
    StreamPacketsEncodable(tx, session, data);
    forall i | 0 <= i < |packets|
      ensures packets[i].opcode != ASK_RESET
    {
      StreamPacketAt(tx, session, data, i);
    }
    SealedParses(packets, session);
    OneWriteArrives(tx, session, data, arrivals);
    NothingIsPartial();
    MessagesRoundTrip(ms, []);
    ConcatEmpty(data);
    ReadingIgnoresChunking([], chunks);
  }

  lemma NothingIsPartial()
    ensures Partial([])
  {}

  /** In every run whose span stays within the window, over any loss and any
      interleaving, the messages read so far are a prefix of the messages
      written; all of them once nothing is unacknowledged or left to take. */
  lemma RunReadsTheMessages(m: nat, steps: seq<Step>, ms: seq<Message>, chunks: seq<seq<byte>>)
    requires Legal(Init(m), steps, BySpan(WINDOW)) && Messages.Fits(ms)
    requires SlotBytes(After(Init(m), steps, BySpan(WINDOW)).sent) == EncodedAll(ms)
    requires Flatten(chunks) == After(Init(m), steps, BySpan(WINDOW)).taken
    ensures var d := After(Init(m), steps, BySpan(WINDOW));
            && PushMessages([], chunks).out <= ms
            && (d.tags == [] && d.rx.ready == [] ==> PushMessages([], chunks) == Read(ms, []))
  {
    hide Legal, After, SlotBytes, ReadAll, Sound, Partial, Total, EncodedAll, NoConfusion;
    var d := After(Init(m), steps, BySpan(WINDOW));
    SmallGateIsSafe(BySpan(WINDOW));
    AllAckedIsAllDelivered(m, steps);
    assert Safe(d);
    assert d.taken <= d.taken + d.rx.ready;
    PrefixReadsPrefix(d.taken, ms);
    NothingIsPartial();
    ConcatEmpty(d.taken);
    ReadingIgnoresChunking([], chunks);
    MessagesRoundTrip(ms, []);
    ConcatEmpty(EncodedAll(ms));
  }

  /** And from wherever a run has come, whatever it has lost, it can go on
      without loss until the reader has them all, however they are cut. */
  lemma EveryMessageCanBeRead(m: nat, run: seq<Step>, ms: seq<Message>) returns (more: seq<Step>)
    requires Legal(Init(m), run, BySpan(WINDOW)) && Messages.Fits(ms)
    requires SlotBytes(After(Init(m), run, BySpan(WINDOW)).sent) == EncodedAll(ms)
    ensures AllDrain(more) && Legal(Init(m), run + more + [Take], BySpan(WINDOW))
    ensures forall chunks :: Flatten(chunks) == After(Init(m), run + more + [Take], BySpan(WINDOW)).taken ==>
      PushMessages([], chunks) == Read(ms, [])
  {
    hide SlotBytes, ReadAll, EncodedAll, Legal, After, Safe;
    more := EverythingCanArrive(m, run);
    var gate, d := BySpan(WINDOW), After(Init(m), run + more, BySpan(WINDOW));
    OneTake(d, gate);
    LegalAppend(Init(m), run + more, [Take], gate);
    ConcatEmpty(d.taken + d.rx.ready);
    forall chunks | Flatten(chunks) == After(d, [Take], gate).taken ensures PushMessages([], chunks) == Read(ms, []) {
      RunReadsTheMessages(m, run + more + [Take], ms, chunks);
    }
  }

  lemma OneTake(d: Dir, gate: Gate)
    requires |d.tags| == |d.tx.unacked|
    ensures Legal(d, [Take], gate) && After(d, [Take], gate) == Apply(d, Take)
  {
    assert [Take][1..] == [];
    assert Legal(Apply(d, Take), [], gate);
  }
}
