/** Whole runs of the sliding window: safety for every interleaving and every
    loss, exactly up to a span of 128; and what a gate that counts the
    unacknowledged packets, as the client's does, is worth with and without
    loss. */
module WindowRuns {
  import opened Bytes
  import opened Packets
  import opened Links
  import opened Seqs
  import opened SlidingWindow

  /** When the sender may send: by the span from the oldest unacknowledged
      packet to the next, or by the number of unacknowledged packets. */
  datatype Gate = BySpan(limit: nat) | ByCount(limit: nat)

  predicate Permits(gate: Gate, d: Dir, step: Step) {
    && Possible(d, step)
    && (step.Send? ==> (if gate.BySpan? then Span(d) else |d.tx.unacked|) < gate.limit)
  }

  predicate Legal(d: Dir, steps: seq<Step>, gate: Gate)
    requires |d.tags| == |d.tx.unacked|
    decreases |steps|
  {
    steps != [] ==> Permits(gate, d, steps[0]) && Legal(Apply(d, steps[0]), steps[1..], gate)
  }

  function After(d: Dir, steps: seq<Step>, gate: Gate): (d': Dir)
    requires |d.tags| == |d.tx.unacked|
    requires Legal(d, steps, gate)
    ensures |d'.tags| == |d'.tx.unacked|
    decreases |steps|
  {
    if steps == [] then d else After(Apply(d, steps[0]), steps[1..], gate)
  }

  ghost predicate RunsAreSafe(gate: Gate) {
    forall m: nat, steps :: Legal(Init(m), steps, gate) ==> Safe(After(Init(m), steps, gate))
  }

  lemma InvLengths(d: Dir)
    requires Inv(d)
    ensures |d.tags| == |d.tx.unacked|
    ensures d.tags == [] <==> d.tx.unacked == []
  {}

  // ---- Safety ----

  lemma {:induction false} RunKeepsInv(d: Dir, steps: seq<Step>, gate: Gate)
    requires Inv(d) && |d.tags| == |d.tx.unacked| && Legal(d, steps, gate)
    requires if gate.BySpan? then gate.limit <= WINDOW else gate.limit <= 1
    ensures Inv(After(d, steps, gate))
    decreases |steps|
  {
    hide Inv, Apply;
    if steps != [] {
      assert Enabled(d, steps[0], WINDOW);
      StepKeepsInv(d, steps[0]);
      RunKeepsInv(Apply(d, steps[0]), steps[1..], gate);
    }
  }

  /** When nothing is left unacknowledged, everything sent has been released. */
  lemma AllAckedIsAllDelivered(m: nat, steps: seq<Step>)
    requires Legal(Init(m), steps, BySpan(WINDOW))
    ensures var d := After(Init(m), steps, BySpan(WINDOW));
            d.tags == [] ==> d.taken + d.rx.ready == SlotBytes(d.sent)
  {
    InitInv(m);
    RunKeepsInv(Init(m), steps, BySpan(WINDOW));
    var d := After(Init(m), steps, BySpan(WINDOW));
    HeadFacts(d);
    if d.tags == [] {
      assert d.sent[..|d.sent|] == d.sent;
    }
  }

  /** The span gate keeps every run safe exactly up to 128, half the sequence
      space: released bytes are a prefix of those sent, whatever is retired was
      received, and no packet or acknowledgement is taken for another. */
  lemma SpanGateIsSafeUpToTheWindow(limit: nat)
    ensures RunsAreSafe(BySpan(limit)) <==> limit <= 128
  {
    if limit <= WINDOW {
      SmallGateIsSafe(BySpan(limit));
    } else {
      StalledRunIsUnsafe(BySpan(limit));
    }
  }

  /** Over lossy channels a gate that counts unacknowledged packets is safe only
      as stop-and-wait: one lost packet lets the span grow without bound while
      the count stays at two. */
  lemma CountGateIsSafeOnlyForOne(limit: nat)
    ensures RunsAreSafe(ByCount(limit)) <==> limit <= 1
  {
    if limit <= 1 {
      SmallGateIsSafe(ByCount(limit));
    } else {
      StalledRunIsUnsafe(ByCount(limit));
    }
  }

  lemma SmallGateIsSafe(gate: Gate)
    requires if gate.BySpan? then gate.limit <= WINDOW else gate.limit <= 1
    ensures RunsAreSafe(gate)
  {
    forall m: nat, steps | Legal(Init(m), steps, gate)
      ensures Safe(After(Init(m), steps, gate))
    {
      InitInv(m);
      RunKeepsInv(Init(m), steps, gate);
      InvIsSafe(After(Init(m), steps, gate));
    }
  }

  // ---- The run that breaks a wider gate ----

  lemma {:induction false} LegalAppend(d: Dir, x: seq<Step>, y: seq<Step>, gate: Gate)
    requires |d.tags| == |d.tx.unacked|
    requires Legal(d, x, gate) && Legal(After(d, x, gate), y, gate)
    ensures Legal(d, x + y, gate)
    ensures After(d, x + y, gate) == After(After(d, x, gate), y, gate)
    decreases |x|
  {
    hide Apply;
    if x == [] {
      ConcatEmpty(y);
    } else {
      assert Possible(d, x[0]);
      TailOfConcat(x, y);
      LegalAppend(Apply(d, x[0]), x[1..], y, gate);
    }
  }

  /** One byte of stream after its two-byte offset. */
  const PAYLOAD: seq<byte> := [0, 0, 0]
  const PIECE := Send(ASK_STREAM_DATA, PAYLOAD, 0, 0)

  /** Packet 0 lost, packets 1 to `k` sent, delivered and acknowledged. */
  ghost predicate Stalled(d: Dir, k: nat) {
    && Inv(d)
    && d.flight == [] && d.acks == []
    && d.tags == [0]
    && |d.sent| == k + 1
    && d.head == 0
  }

  const START := [PIECE, LoseData(0)]
  const ROUND := [PIECE, DeliverData, DeliverAck]

  lemma StallStart(m: nat, gate: Gate)
    requires gate.limit >= 1
    ensures Legal(Init(m), START, gate)
    ensures Stalled(After(Init(m), START, gate), 0)
  {
    var d := Init(m);
    InitInv(m);
    StepKeepsInv(d, PIECE);
    var d1 := Apply(d, PIECE);
    assert d1.flight == [Data(0, NextPacket(d.tx, ASK_STREAM_DATA, PAYLOAD))];
    StepKeepsInv(d1, LoseData(0));
    var d2 := Apply(d1, LoseData(0));
    assert d2.flight == [];
    assert START[1..] == [LoseData(0)] && START[1..][1..] == [];
    assert Legal(d2, [], gate);
    assert Legal(d1, [LoseData(0)], gate);
    assert After(d1, [LoseData(0)], gate) == After(d2, [], gate);
  }

  lemma RoundTaken(d: Dir, gate: Gate)
    requires |d.tags| == |d.tx.unacked| && Permits(gate, d, PIECE)
    requires d.flight == [] && d.acks == []
    ensures var d1 := Apply(d, PIECE);
            && d1.flight != [] && |Received(d1).acks| == 1
            && Legal(d, ROUND, gate)
            && After(d, ROUND, gate) == Apply(Received(d1), DeliverAck)
  {
    var d1 := Apply(d, PIECE);
    var p := NextPacket(d.tx, ASK_STREAM_DATA, PAYLOAD);
    assert d1.flight == [Data(|d.sent|, p)];
    assert IsStream(p) && p.payload == PAYLOAD;
    var d2 := Apply(d1, DeliverData);
    var d3 := Apply(d2, DeliverAck);
    hide Received, Pushed;
    assert ROUND[1..] == [DeliverData, DeliverAck];
    assert ROUND[1..][1..] == [DeliverAck];
    assert ROUND[1..][1..][1..] == [];
    assert Legal(d3, [], gate);
    assert Legal(d2, [DeliverAck], gate) && After(d2, [DeliverAck], gate) == d3;
    assert Legal(d1, [DeliverData, DeliverAck], gate) && After(d1, [DeliverData, DeliverAck], gate) == d3;
  }

  lemma OnlyZeroLeft(tags: seq<nat>)
    requires forall t :: t in tags <==> t == 0
    requires forall i, j :: 0 <= i < j < |tags| ==> tags[i] < tags[j]
    ensures tags == [0]
  {
    assert 0 in tags;
    var second := if |tags| > 1 then tags[1] else 0;
    assert tags[0] in tags && second in tags;
  }

  lemma StalledRound(d: Dir, k: nat, gate: Gate)
    requires Stalled(d, k) && k + 1 < WINDOW
    requires |d.tags| == |d.tx.unacked| && Permits(gate, d, PIECE)
    ensures Legal(d, ROUND, gate)
    ensures Stalled(After(d, ROUND, gate), k + 1)
  {
    RoundTaken(d, gate);
    StepKeepsInv(d, PIECE);
    var d1 := Apply(d, PIECE);
    assert d1.flight[0].abs == k + 1 && d1.tags == [0, k + 1];
    assert !Got(d1, 0);
    hide NextPacket;
    StepKeepsInv(d1, DeliverData);
    DeliverRx(d1);
    DeliveryKeeps(d1);
    var d2 := Received(d1);
    hide Inv, Received;
    assert !Got(d2, 0);
    assert d2.acks == [Ack(k + 1, 0, d1.flight[0].packet.seq_)] && d2.flight == [];
    RetireOthers(d2, k + 1);
  }

  lemma RetireOthers(d: Dir, n: nat)
    requires Inv(d) && d.flight == [] && |d.acks| == 1 && d.acks[0].abs == n
    requires d.tags == [0, n] && n > 0 && |d.sent| == n + 1 && d.head == 0
    ensures Stalled(Apply(d, DeliverAck), n)
  {
    var d' := Apply(d, DeliverAck);
    StepKeepsInv(d, DeliverAck);
    AckTx(d, d');
    IncreasingTags(d');
    hide Inv, TxRel, RetainedTags;
    OnlyZeroLeft(d'.tags);
  }

  lemma IncreasingTags(d: Dir)
    requires Inv(d)
    ensures forall i, j :: 0 <= i < j < |d.tags| ==> d.tags[i] < d.tags[j]
  {}

  /** The rounds that bring the span to 128. */
  lemma {:induction false} Stall(m: nat, k: nat, gate: Gate) returns (steps: seq<Step>)
    requires k < WINDOW
    requires gate.limit > (if gate.BySpan? then WINDOW else 1)
    ensures Legal(Init(m), steps, gate)
    ensures Stalled(After(Init(m), steps, gate), k)
    decreases k
  {
    if k == 0 {
      StallStart(m, gate);
      steps := START;
    } else {
      hide Inv, Apply;
      var before := Stall(m, k - 1, gate);
      var d := After(Init(m), before, gate);
      StalledRound(d, k - 1, gate);
      LegalAppend(Init(m), before, ROUND, gate);
      steps := before + ROUND;
    }
  }

  /** One more round: packet 128 looks like an old one to a receiver still at
      0, is acknowledged all the same, and is retired without being received. */
  lemma OneRoundTooMany(d: Dir, gate: Gate)
    requires Stalled(d, WINDOW - 1)
    requires |d.tags| == |d.tx.unacked| && Permits(gate, d, PIECE)
    ensures Legal(d, ROUND, gate)
    ensures !Safe(After(d, ROUND, gate))
  {
    RoundTaken(d, gate);
    StalledFacts(d);
    StalledRequest(d);
    var d1 := Apply(d, PIECE);
    hide Inv, Apply;
    TooFarIsAcked(d1);
    hide Received;
    var d2 := Received(d1);
    LastOfTwo(d1.tx.unacked);
    AckApplied(d2);
    var d3 := Apply(d2, DeliverAck);
    assert WINDOW !in d3.tags && !Got(d3, WINDOW);
  }

  lemma AckApplied(d: Dir)
    requires |d.tags| == |d.tx.unacked| && d.acks != []
    ensures var d' := Apply(d, DeliverAck);
            && d'.tags == RetainedTags(d.tx.unacked, d.tags, d.acks[0].seq_)
            && d'.sent == d.sent && d'.head == d.head && d'.held == d.held
            && d'.flight == d.flight && d'.acks == d.acks[1..]
  {}

  lemma StalledRequest(d: Dir)
    requires Stalled(d, WINDOW - 1)
    requires |d.tx.unacked| == 1 && d.tx.unacked[0].packet.seq_ == 0 && d.tx.nextSeq == 128
    ensures var d1 := Apply(d, PIECE);
            && |d1.flight| == 1 && d1.flight[0].abs == WINDOW
            && d1.flight[0].packet.seq_ == 128 && IsStream(d1.flight[0].packet)
            && d1.flight[0].packet.payload == PAYLOAD
            && d1.tags == [0, WINDOW] && |d1.sent| == WINDOW + 1
            && |d1.tx.unacked| == 2 && d1.tx.unacked[0].packet.seq_ == 0 && d1.tx.unacked[1].packet.seq_ == 128
            && d1.rx == d.rx && d1.acks == [] && d1.head == d.head && d1.held == d.held
  {
    hide Inv;
    var p := NextPacket(d.tx, ASK_STREAM_DATA, PAYLOAD);
    assert d.flight + [Data(WINDOW, p)] == [Data(WINDOW, p)];
  }

  lemma StalledFacts(d: Dir)
    requires Stalled(d, WINDOW - 1)
    ensures d.tx.nextSeq == 128 && d.rx.recvHead == 0 && !Got(d, WINDOW)
    ensures |d.tx.unacked| == 1 && d.tx.unacked[0].packet.seq_ == 0
  {
    assert Carries(d.tx.unacked[0].packet, d.tags[0], d.sent);
  }

  lemma TooFarIsAcked(d: Dir)
    requires |d.flight| == 1 && d.flight[0].packet.seq_ == 128 && IsStream(d.flight[0].packet)
    requires d.flight[0].packet.payload == PAYLOAD
    requires d.rx.recvHead == 0 && d.acks == []
    ensures Received(d) == d.(flight := [], acks := [Ack(d.flight[0].abs, d.head, 128)])
  {
    assert !InWindow(d.rx, 128);
  }

  lemma LastOfTwo(u: seq<Pending>)
    requires |u| == 2 && u[0].packet.seq_ == 0 && u[1].packet.seq_ == 128
    ensures RetainedTags(u, [0, WINDOW], 128) == [0]
  {
    var tags: seq<nat> := [0, WINDOW];
    assert tags[1..] == [WINDOW] && tags[1..][1..] == [];
    assert RetainedTags(u[1..], tags[1..], 128) == [];
  }

  lemma StalledRunIsUnsafe(gate: Gate)
    requires gate.limit > (if gate.BySpan? then WINDOW else 1)
    ensures !RunsAreSafe(gate)
  {
    hide Inv, Apply, Safe;
    var before := Stall(0, WINDOW - 1, gate);
    var d := After(Init(0), before, gate);
    OneRoundTooMany(d, gate);
    LegalAppend(Init(0), before, ROUND, gate);
    assert !Safe(After(Init(0), before + ROUND, gate));
  }

  // ---- Without loss the count is the span ----

  predicate Lossless(steps: seq<Step>) {
    forall s :: s in steps ==> !s.LoseData? && !s.LoseAck?
  }

  /** Where a counter at `h` ends up when it takes each number equal to it. */
  function Reach(h: nat, numbers: seq<nat>): nat
    decreases |numbers|
  {
    if numbers == [] then h else Reach(if numbers[0] == h then h + 1 else h, numbers[1..])
  }

  /** No number is ever ahead of that counter. */
  predicate Orderly(h: nat, numbers: seq<nat>)
    decreases |numbers|
  {
    numbers != [] ==> numbers[0] <= h && Orderly(if numbers[0] == h then h + 1 else h, numbers[1..])
  }

  function Numbers(flight: seq<Data>): seq<nat>
    decreases |flight|
  {
    if flight == [] then [] else [flight[0].abs] + Numbers(flight[1..])
  }

  function AckNumbers(acks: seq<Ack>): seq<nat>
    decreases |acks|
  {
    if acks == [] then [] else [acks[0].abs] + AckNumbers(acks[1..])
  }

  lemma {:induction false} NumbersAppend(x: seq<Data>, y: seq<Data>)
    ensures Numbers(x + y) == Numbers(x) + Numbers(y)
    decreases |x|
  {
    if x == [] {
      ConcatEmpty(y);
      ConcatEmpty(Numbers(y));
    } else {
      TailOfConcat(x, y);
      NumbersAppend(x[1..], y);
      ConcatAssociative([x[0].abs], Numbers(x[1..]), Numbers(y));
    }
  }

  lemma {:induction false} AckNumbersSnoc(x: seq<Ack>, a: Ack)
    ensures AckNumbers(x + [a]) == AckNumbers(x) + [a.abs]
    decreases |x|
  {
    if x == [] {
      ConcatEmpty([a]);
      ConcatEmpty([a.abs]);
      assert [a][1..] == [];
    } else {
      TailOfConcat(x, [a]);
      AckNumbersSnoc(x[1..], a);
      ConcatAssociative([x[0].abs], AckNumbers(x[1..]), [a.abs]);
    }
  }

  lemma OneData(x: Data)
    ensures Numbers([x]) == [x.abs]
  {
    assert [x][1..] == [];
  }

  lemma FirstNumber(x: seq<Data>, h: nat)
    requires x != [] && Orderly(h, Numbers(x))
    ensures var n := x[0].abs;
            var h' := if n == h then h + 1 else h;
            && n <= h && Orderly(h', Numbers(x[1..])) && Reach(h', Numbers(x[1..])) == Reach(h, Numbers(x))
  {
    assert Numbers(x)[1..] == Numbers(x[1..]);
  }

  lemma FirstAck(x: seq<Ack>, h: nat)
    requires x != [] && Orderly(h, AckNumbers(x))
    ensures var n := x[0].abs;
            var h' := if n == h then h + 1 else h;
            && n <= h && Orderly(h', AckNumbers(x[1..])) && Reach(h', AckNumbers(x[1..])) == Reach(h, AckNumbers(x))
  {
    assert AckNumbers(x)[1..] == AckNumbers(x[1..]);
  }

  /** Everything arrives, and is acknowledged, in order. */
  ghost predicate Contiguous(d: Dir) {
    && Inv(d)
    && InOrderSoFar(d)
  }

  predicate InOrderSoFar(d: Dir) {
    && d.held == {}
    && |d.tags| <= |d.sent|
    && (forall i :: 0 <= i < |d.tags| ==> d.tags[i] == |d.sent| - |d.tags| + i)
    && FlightInOrder(d.head, d.flight, |d.sent|)
    && AcksInOrder(|d.sent| - |d.tags|, d.acks, d.head)
  }

  predicate FlightInOrder(h: nat, flight: seq<Data>, end: nat) {
    Orderly(h, Numbers(flight)) && Reach(h, Numbers(flight)) == end
  }

  predicate AcksInOrder(h: nat, acks: seq<Ack>, end: nat) {
    Orderly(h, AckNumbers(acks)) && Reach(h, AckNumbers(acks)) == end
  }

  lemma {:induction false} OrderlyAppend(h: nat, x: seq<nat>, y: seq<nat>)
    ensures Orderly(h, x + y) <==> Orderly(h, x) && Orderly(Reach(h, x), y)
    ensures Reach(h, x + y) == Reach(Reach(h, x), y)
    decreases |x|
  {
    if x == [] {
      ConcatEmpty(y);
    } else {
      TailOfConcat(x, y);
      OrderlyAppend(if x[0] == h then h + 1 else h, x[1..], y);
    }
  }

  lemma {:induction false} OldNumbers(h: nat, x: seq<nat>)
    requires forall i :: 0 <= i < |x| ==> x[i] < h
    ensures Orderly(h, x) && Reach(h, x) == h
    decreases |x|
  {
    if x != [] {
      OldNumbers(h, x[1..]);
    }
  }

  lemma {:induction false} ReachGrows(h: nat, x: seq<nat>)
    ensures h <= Reach(h, x)
    decreases |x|
  {
    if x != [] {
      ReachGrows(if x[0] == h then h + 1 else h, x[1..]);
    }
  }

  lemma OneNumber(h: nat, n: nat)
    requires n <= h
    ensures Orderly(h, [n]) && Reach(h, [n]) == if n == h then h + 1 else h
  {
    assert [n][1..] == [];
  }

  lemma {:induction false} RetainedNone(unacked: seq<Pending>, tags: seq<nat>, s: byte)
    requires |tags| == |unacked|
    requires forall i :: 0 <= i < |unacked| ==> unacked[i].packet.seq_ != s
    ensures RetainedTags(unacked, tags, s) == tags
    decreases |unacked|
  {
    if unacked != [] {
      RetainedNone(unacked[1..], tags[1..], s);
      SplitAt(tags, 1);
    }
  }

  lemma MoreFlight(h: nat, flight: seq<Data>, more: seq<Data>, end: nat, end': nat)
    requires FlightInOrder(h, flight, end)
    requires FlightInOrder(end, more, end')
    ensures FlightInOrder(h, flight + more, end')
  {
    NumbersAppend(flight, more);
    OrderlyAppend(h, Numbers(flight), Numbers(more));
  }

  lemma SendStaysContiguous(d: Dir, step: Step)
    requires Contiguous(d) && step.Send? && Enabled(d, step, WINDOW)
    ensures Contiguous(Apply(d, step))
  {
    StepKeepsInv(d, step);
    var d' := Apply(d, step);
    var x := Data(|d.sent|, NextPacket(d.tx, step.opcode, step.payload));
    OneData(x);
    OneNumber(|d.sent|, |d.sent|);
    hide Inv, SlotOf, Reach, Orderly, Numbers;
    assert FlightInOrder(|d.sent|, [x], |d.sent| + 1);
    MoreFlight(d.head, d.flight, [x], |d.sent|, |d.sent| + 1);
    hide FlightInOrder, AcksInOrder;
  }

  lemma OldFlight(h: nat, more: seq<Data>)
    requires forall i :: 0 <= i < |more| ==> more[i].abs < h
    ensures FlightInOrder(h, more, h)
  {
    NumbersAt(more);
    OldNumbers(h, Numbers(more));
  }

  lemma {:induction false} NumbersAt(x: seq<Data>)
    ensures |Numbers(x)| == |x| && forall i :: 0 <= i < |x| ==> Numbers(x)[i] == x[i].abs
    decreases |x|
  {
    if x != [] {
      NumbersAt(x[1..]);
    }
  }

  lemma ResentIsSent(d: Dir, now: u32)
    requires Inv(d)
    ensures forall i :: 0 <= i < |ResentData(d.tx.unacked, d.tags, now)| ==>
      ResentData(d.tx.unacked, d.tags, now)[i].abs < |d.sent|
  {
    ResentDataFacts(d.tx.unacked, d.tags, 0, now, d.sent);
  }

  lemma TickStaysContiguous(d: Dir)
    requires Contiguous(d)
    ensures Contiguous(Apply(d, Tick))
  {
    StepKeepsInv(d, Tick);
    var now := NextTick(d.tx.tick);
    ResentIsSent(d, now);
    hide Inv, FlightInOrder, AcksInOrder, ResentData;
    var more := ResentData(d.tx.unacked, d.tags, now);
    OldFlight(|d.sent|, more);
    MoreFlight(d.head, d.flight, more, |d.sent|, |d.sent|);
  }

  /** In order, a delivery moves the head on by one or is a duplicate. */
  lemma DeliveryInOrder(d: Dir)
    requires Inv(d) && d.flight != [] && d.held == {} && d.flight[0].abs <= d.head
    ensures var d', abs := Received(d), d.flight[0].abs;
            && d'.head == (if abs == d.head then d.head + 1 else d.head) && d'.held == {}
            && d'.acks == d.acks + [Ack(abs, d'.head, d.flight[0].packet.seq_)]
  {
    var abs := d.flight[0].abs;
    ArrivalFacts(d);
    DeliverRx(d);
    DeliveredAcks(d);
    ReceivedHead(d);
    ReleaseSingle(abs);
    hide Inv, Received, Delivered, Acks, ReleasedTo, InWindow;
    assert d.held + {abs} == {abs};
  }

  lemma ReceivedHead(d: Dir)
    requires d.flight != []
    ensures var Data(abs, p) := d.flight[0];
            var r := if InWindow(d.rx, p.seq_) then ReleasedTo(d.head, d.held + {abs}) else (d.head, d.held);
            Received(d).head == r.0 && Received(d).held == r.1
  {}

  lemma ReleaseSingle(n: nat)
    ensures ReleasedTo(n, {n}) == (n + 1, {})
  {
    assert {n} - {n} == {};
  }

  lemma DeliveredAcks(d: Dir)
    requires d.flight != [] && Delivered(d, Received(d), d.flight[0].abs, d.flight[0].packet.seq_)
    ensures var d' := Received(d);
            d'.acks == d.acks + [Ack(d.flight[0].abs, d'.head, d.flight[0].packet.seq_)]
  {}

  lemma OneMoreAck(h: nat, acks: seq<Ack>, a: Ack, end: nat)
    requires AcksInOrder(h, acks, end) && a.abs <= end
    ensures AcksInOrder(h, acks + [a], if a.abs == end then end + 1 else end)
  {
    AckNumbersSnoc(acks, a);
    OrderlyAppend(h, AckNumbers(acks), [a.abs]);
    OneNumber(end, a.abs);
  }

  lemma DeliverApplied(d: Dir)
    requires |d.tags| == |d.tx.unacked| && d.flight != []
    ensures Apply(d, DeliverData) == Received(d)
  {}

  lemma DeliveryStaysContiguous(d: Dir)
    requires Contiguous(d) && d.flight != []
    ensures Contiguous(Apply(d, DeliverData))
  {
    hide Inv, Received, Apply, AcksInOrder, Numbers, Reach, Orderly;
    InvLengths(d);
    StepKeepsInv(d, DeliverData);
    DeliveryKeeps(d);
    FirstNumber(d.flight, d.head);
    DeliveryInOrder(d);
    DeliverApplied(d);
    var d' := Received(d);
    OneMoreAck(|d.sent| - |d.tags|, d.acks, Ack(d.flight[0].abs, d'.head, d.flight[0].packet.seq_), d.head);
  }

  lemma AckTags(d: Dir, base: nat)
    requires Inv(d) && d.acks != [] && d.acks[0].abs <= base
    requires base + |d.tags| == |d.sent|
    requires forall i :: 0 <= i < |d.tags| ==> d.tags[i] == base + i
    requires d.acks[0].abs == base ==> d.tags != []
    ensures var d' := Apply(d, DeliverAck);
            d'.tags == if d.acks[0].abs == base then d.tags[1..] else d.tags
  {
    hide Inv, Safe, NoConfusion;
    var a := d.acks[0];
    InvLengths(d);
    var unacked := d.tx.unacked;
    forall i | 0 <= i < |d.tags| ensures unacked[i].packet.seq_ == a.seq_ <==> d.tags[i] == a.abs {
      AckHitsOwnPacket(d, i);
    }
    if a.abs == base {
      RetainedNone(unacked[1..], d.tags[1..], a.seq_);
      ConcatEmpty(d.tags[1..]);
    } else {
      RetainedNone(unacked, d.tags, a.seq_);
    }
  }

  lemma AckStaysContiguous(d: Dir)
    requires Contiguous(d) && d.acks != []
    ensures Contiguous(Apply(d, DeliverAck))
  {
    hide Inv, Apply, Retained, RetainedTags, AckNumbers, Reach, Orderly, Numbers;
    InvLengths(d);
    StepKeepsInv(d, DeliverAck);
    var base := |d.sent| - |d.tags|;
    FirstAck(d.acks, base);
    ReachGrows(if d.acks[0].abs == base then base + 1 else base, AckNumbers(d.acks[1..]));
    ReachGrows(d.head, Numbers(d.flight));
    AckTags(d, base);
    InvLengths(d);
    AckApplied(d);
  }

  lemma StepStaysContiguous(d: Dir, step: Step)
    requires Contiguous(d) && Enabled(d, step, WINDOW) && !step.LoseData? && !step.LoseAck?
    ensures Contiguous(Apply(d, step))
  {
    match step
    case Send(_, _, _, _) => SendStaysContiguous(d, step);
    case Tick => TickStaysContiguous(d);
    case DeliverData => DeliveryStaysContiguous(d);
    case DeliverAck => AckStaysContiguous(d);
    case Take => StepKeepsInv(d, step);
  }

  lemma CountIsSpan(d: Dir)
    requires Contiguous(d)
    ensures |d.tx.unacked| == Span(d)
  {
    InvLengths(d);
  }

  lemma {:induction false} LosslessRun(d: Dir, steps: seq<Step>, limit: nat)
    requires Contiguous(d) && |d.tags| == |d.tx.unacked|
    requires limit <= WINDOW && Lossless(steps) && Legal(d, steps, ByCount(limit))
    ensures Legal(d, steps, BySpan(limit))
    ensures After(d, steps, BySpan(limit)) == After(d, steps, ByCount(limit))
    ensures Contiguous(After(d, steps, ByCount(limit)))
    decreases |steps|
  {
    if steps != [] {
      CountIsSpan(d);
      assert steps[0] in steps;
      assert Enabled(d, steps[0], WINDOW);
      StepStaysContiguous(d, steps[0]);
      hide Contiguous, Apply;
      LosslessRun(Apply(d, steps[0]), steps[1..], limit);
    }
  }

  /** On channels that lose nothing, counting is as good as measuring the span:
      the two are equal throughout, and the run is safe. */
  lemma CountGateIsSafeWithoutLoss(m: nat, steps: seq<Step>, limit: nat)
    requires limit <= WINDOW && Lossless(steps) && Legal(Init(m), steps, ByCount(limit))
    ensures var d := After(Init(m), steps, ByCount(limit));
            Safe(d) && |d.tx.unacked| == Span(d)
  {
    InitInv(m);
    LosslessRun(Init(m), steps, limit);
    var d := After(Init(m), steps, ByCount(limit));
    CountIsSpan(d);
    InvIsSafe(d);
  }
}
