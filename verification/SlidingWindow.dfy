/** One direction of the link: a sender, a receiver, and two FIFO channels that
    may lose packets. Every packet carries, for the proof only, its absolute
    number; nothing but the 8-bit sequence number is ever looked at by the two
    endpoints. Sending is gated on the span from the oldest unacknowledged
    packet to the next one. */
module SlidingWindow {
  import opened Bytes
  import opened Packets
  import opened Links
  import opened Seqs

  datatype Data = Data(abs: nat, packet: Packet)

  /** An acknowledgement; `head` is how far the receiver had released when it
      was sent. */
  datatype Ack = Ack(abs: nat, head: nat, seq_: byte)

  datatype Dir = Dir(
    tx: Tx,
    rx: Rx,
    flight: seq<Data>,
    acks: seq<Ack>,
    // History: what each absolute number carried, the numbers of the unacked
    // packets, how many slots were released, which later ones are stored, and
    // the stream bytes already handed up.
    sent: seq<Slot>,
    tags: seq<nat>,
    head: nat,
    held: set<nat>,
    taken: seq<byte>)

  datatype Step =
    | Send(opcode: byte, payload: seq<byte>, seed: bv32, offset: u16)
    | Tick
    | LoseData(i: nat)
    | LoseAck(i: nat)
    | DeliverData
    | DeliverAck
    | Take

  function Init(maxPacketBytes: nat): Dir {
    Dir(FreshTx(maxPacketBytes), FreshRx(), [], [], [], [], 0, {}, [])
  }

  function Without<T>(s: seq<T>, i: nat): seq<T>
    requires i < |s|
  {
    s[..i] + s[i + 1..]
  }

  predicate IsStream(p: Packet) { BaseOpcode(p.opcode) == ASK_STREAM_DATA }

  /** Packets from the oldest unacknowledged one to the next one. */
  function Span(d: Dir): int {
    if d.tags == [] then 0 else |d.sent| - d.tags[0]
  }

  /** A step that can be taken at all. */
  predicate Possible(d: Dir, step: Step) {
    match step
    case Send(opcode, payload, _, _) => BaseOpcode(opcode) == ASK_STREAM_DATA ==> |payload| >= 2
    case LoseData(i) => i < |d.flight|
    case LoseAck(i) => i < |d.acks|
    case DeliverData => d.flight != []
    case DeliverAck => d.acks != []
    case _ => true
  }

  /** Sending waits until the span leaves room for one more packet. */
  predicate Enabled(d: Dir, step: Step, window: nat) {
    Possible(d, step) && (step.Send? ==> Span(d) < window)
  }

  /** The absolute numbers of the packets `Retained` keeps. */
  function RetainedTags(unacked: seq<Pending>, tags: seq<nat>, s: byte): (r: seq<nat>)
    requires |tags| == |unacked|
    ensures |r| == |Retained(unacked, s)|
    decreases |unacked|
  {
    if unacked == [] then []
    else (if unacked[0].packet.seq_ != s then [tags[0]] else []) + RetainedTags(unacked[1..], tags[1..], s)
  }

  /** The resent packets with their absolute numbers. */
  function ResentData(unacked: seq<Pending>, tags: seq<nat>, tick: u32): seq<Data>
    requires |tags| == |unacked|
    decreases |unacked|
  {
    if unacked == [] then []
    else (if Due(unacked[0], tick) then [Data(tags[0], Resend(unacked[0], tick).packet)] else [])
         + ResentData(unacked[1..], tags[1..], tick)
  }

  /** Releasing stored slots from `head` on, as far as they go. */
  function ReleasedTo(head: nat, held: set<nat>): (nat, set<nat>)
    decreases |held|
  {
    if head in held then ReleasedTo(head + 1, held - {head}) else (head, held)
  }

  function Received(d: Dir): Dir
    requires d.flight != []
  {
    var Data(abs, p) := d.flight[0];
    var rx := if IsStream(p) then StreamAccepted(d.rx, p.seq_, p.payload) else ControlAccepted(d.rx, p.seq_);
    var r := if InWindow(d.rx, p.seq_) then ReleasedTo(d.head, d.held + {abs}) else (d.head, d.held);
    d.(rx := rx,
       flight := d.flight[1..],
       head := r.0,
       held := r.1,
       acks := if !IsStream(p) || Acks(d.rx, p.seq_, p.payload)
               then d.acks + [Ack(abs, r.0, p.seq_)] else d.acks)
  }

  function Apply(d: Dir, step: Step): (d': Dir)
    requires |d.tags| == |d.tx.unacked|
    requires Possible(d, step)
    ensures |d'.tags| == |d'.tx.unacked|
  {
    match step
    case Send(opcode, payload, seed, offset) =>
      var p := NextPacket(d.tx, opcode, payload);
      d.(tx := Pushed(d.tx, opcode, payload, seed).(streamOffset := offset),
         flight := d.flight + [Data(|d.sent|, p)],
         sent := d.sent + [SlotOf(p)],
         tags := d.tags + [|d.sent|])
    case Tick =>
      d.(tx := Ticked(d.tx),
         flight := d.flight + ResentData(d.tx.unacked, d.tags, NextTick(d.tx.tick)))
    case LoseData(i) => d.(flight := Without(d.flight, i))
    case LoseAck(i) => d.(acks := Without(d.acks, i))
    case DeliverData => Received(d)
    case DeliverAck =>
      d.(tx := Acked(d.tx, d.acks[0].seq_),
         tags := RetainedTags(d.tx.unacked, d.tags, d.acks[0].seq_),
         acks := d.acks[1..])
    case Take => d.(taken := d.taken + d.rx.ready, rx := d.rx.(ready := []))
  }

  // ---- Safety ----

  predicate Got(d: Dir, k: nat) { k < d.head || k in d.held }

  /** The packet and the acknowledgement next in line are taken for exactly
      what they are: the packet is stored just when its slot is still open
      ahead of the head, and the acknowledgement retires just its own packet. */
  predicate NoConfusion(d: Dir) {
    && (d.flight != [] ==> (InWindow(d.rx, d.flight[0].packet.seq_) <==> d.head <= d.flight[0].abs))
    && (d.acks != [] && |d.tags| == |d.tx.unacked| ==>
          forall i ::
            0 <= i < |d.tags| ==> (d.tx.unacked[i].packet.seq_ == d.acks[0].seq_ <==> d.tags[i] == d.acks[0].abs))
  }

  predicate Safe(d: Dir) {
    && d.taken + d.rx.ready <= SlotBytes(d.sent)
    && (forall k :: 0 <= k < |d.sent| && k !in d.tags ==> Got(d, k))
    && NoConfusion(d)
  }

  // ---- The invariant ----

  /** The sequence number of an absolute number. */
  function SeqOf(abs: nat): byte { abs % 256 }

  /** The first absolute number from `head` on that has sequence number `b`. */
  function AbsAt(head: nat, b: byte): nat { head + (b - head) % 256 }

  ghost predicate RxRel(rx: Rx, sent: seq<Slot>, head: nat, held: set<nat>, out: seq<byte>) {
    && head <= |sent|
    && rx.recvHead == SeqOf(head)
    && (forall g :: g in held ==> head <= g < |sent| && g < head + WINDOW)
    && (forall b: byte {:trigger b in rx.received} ::
          && (b in rx.received <==> AbsAt(head, b) in held)
          && (b in rx.received ==> rx.received[b] == sent[AbsAt(head, b)]))
    && out == SlotBytes(sent[..head])
  }

  predicate Carries(p: Packet, abs: nat, sent: seq<Slot>) {
    && abs < |sent|
    && p.seq_ == SeqOf(abs)
    && SlotOf(p) == sent[abs]
    && (IsStream(p) ==> |p.payload| >= 2)
  }

  ghost predicate TxRel(d: Dir, window: nat) {
    && d.tx.nextSeq == SeqOf(|d.sent|)
    && |d.tags| == |d.tx.unacked|
    && (forall i :: 0 <= i < |d.tags| ==> Carries(d.tx.unacked[i].packet, d.tags[i], d.sent))
    && (forall i, j :: 0 <= i < j < |d.tags| ==> d.tags[i] < d.tags[j])
    && Span(d) <= window
    && (forall k :: 0 <= k < |d.sent| && k !in d.tags ==> Got(d, k))
  }

  ghost predicate FlightRel(d: Dir) {
    && (forall j :: 0 <= j < |d.flight| ==>
          && Carries(d.flight[j].packet, d.flight[j].abs, d.sent)
          && d.head <= d.flight[j].abs + WINDOW
          && (forall g :: g in d.held ==> g < d.flight[j].abs + WINDOW))
    && (forall i, j :: 0 <= i < j < |d.flight| ==> d.flight[i].abs < d.flight[j].abs + WINDOW)
  }

  predicate AckRel(d: Dir, a: Ack) {
    && a.abs < |d.sent|
    && a.seq_ == SeqOf(a.abs)
    && Got(d, a.abs)
    && a.head <= a.abs + WINDOW
    && (a.head < |d.sent| ==> a.head in d.tags)
  }

  ghost predicate AcksRel(d: Dir) {
    && (forall j :: 0 <= j < |d.acks| ==> AckRel(d, d.acks[j]))
    && (forall i, j :: 0 <= i <= j < |d.acks| ==> d.acks[i].abs != d.acks[j].head)
  }

  ghost predicate Inv(d: Dir) {
    && TxRel(d, WINDOW)
    && d.head !in d.held
    && RxRel(d.rx, d.sent, d.head, d.held, d.taken + d.rx.ready)
    && FlightRel(d)
    && AcksRel(d)
  }

  // ---- Arithmetic modulo 256 ----

  lemma AbsAtOf(head: nat, g: nat)
    requires head <= g < head + 256
    ensures AbsAt(head, SeqOf(g)) == g
  {}

  lemma AbsAtRange(head: nat, b: byte)
    ensures head <= AbsAt(head, b) < head + 256
    ensures SeqOf(AbsAt(head, b)) == b
  {}

  lemma AbsAtNext(head: nat, b: byte)
    ensures AbsAt(head + 1, b) == if b == SeqOf(head) then head + 256 else AbsAt(head, b)
  {}

  /** Half the sequence space decides: a number at most 128 behind the head or
      less than 128 ahead of it is in the window exactly when it is ahead. */
  lemma WindowIsExact(head: nat, p: nat, rx: Rx)
    requires rx.recvHead == SeqOf(head)
    requires head <= p + WINDOW && p < head + WINDOW
    ensures InWindow(rx, SeqOf(p)) <==> head <= p
    ensures !InWindow(rx, SeqOf(p)) ==> Sub(SeqOf(p), rx.recvHead) / 128 % 2 == 1
  {}

  lemma SameSeqSameNumber(s: nat, t: nat)
    requires SeqOf(s) == SeqOf(t) && s < t + 256 && t < s + 256
    ensures s == t
  {}

  lemma NextSeqOf(abs: nat)
    ensures Next(SeqOf(abs)) == SeqOf(abs + 1)
  {}

  // ---- The receiver ----

  lemma SlotBytesPrefix(sent: seq<Slot>, k: nat)
    requires k <= |sent|
    ensures SlotBytes(sent[..k]) <= SlotBytes(sent)
    decreases k
  {
    if k > 0 {
      assert sent[..k][1..] == sent[1..][..k - 1];
      SlotBytesPrefix(sent[1..], k - 1);
    }
  }

  lemma {:induction false} SlotBytesSnoc(slots: seq<Slot>, slot: Slot)
    ensures SlotBytes(slots + [slot]) == SlotBytes(slots) + (if slot.Some? then slot.value else [])
    decreases |slots|
  {
    var last := if slot.Some? then slot.value else [];
    if slots == [] {
      ConcatEmpty([slot]);
      ConcatEmpty(last);
      assert [slot][1..] == [];
    } else {
      TailOfConcat(slots, [slot]);
      SlotBytesSnoc(slots[1..], slot);
      ConcatAssociative(if slots[0].Some? then slots[0].value else [], SlotBytes(slots[1..]), last);
    }
  }

  lemma ReleaseBytes(rx: Rx, sent: seq<Slot>, head: nat, taken: seq<byte>)
    requires head < |sent| && rx.recvHead in rx.received && rx.received[rx.recvHead] == sent[head]
    requires taken + rx.ready == SlotBytes(sent[..head])
    ensures taken + Released(rx).ready == SlotBytes(sent[..head + 1])
  {
    var slot := sent[head];
    assert sent[..head + 1] == sent[..head] + [slot];
    SlotBytesSnoc(sent[..head], slot);
    if slot.Some? {
      ConcatAssociative(taken, rx.ready, slot.value);
    } else {
      ConcatEmpty(taken + rx.ready);
    }
  }

  /** One release step of the receiver keeps the relation. */
  lemma ReleaseOne(rx: Rx, sent: seq<Slot>, head: nat, held: set<nat>, taken: seq<byte>)
    requires RxRel(rx, sent, head, held, taken + rx.ready)
    requires rx.recvHead in rx.received
    ensures head in held
    ensures RxRel(Released(rx), sent, head + 1, held - {head}, taken + Released(rx).ready)
  {
    AbsAtOf(head, head);
    NextSeqOf(head);
    hide SlotBytes, AbsAt, SeqOf, Next;
    ReleaseBytes(rx, sent, head, taken);
    var rx', held' := Released(rx), held - {head};
    forall b: byte
      ensures b in rx'.received <==> AbsAt(head + 1, b) in held'
      ensures b in rx'.received ==> rx'.received[b] == sent[AbsAt(head + 1, b)]
    {
      AbsAtNext(head, b);
      AbsAtRange(head, b);
      assert b in rx'.received <==> b in rx.received && b != SeqOf(head);
    }
  }

  lemma {:induction false} AdvanceReleases(rx: Rx, sent: seq<Slot>, head: nat, held: set<nat>, taken: seq<byte>)
    requires RxRel(rx, sent, head, held, taken + rx.ready)
    ensures var r := ReleasedTo(head, held);
            && RxRel(Advanced(rx), sent, r.0, r.1, taken + Advanced(rx).ready)
            && r.0 !in r.1 && head <= r.0
    decreases |rx.received|
  {
    hide RxRel, Released;
    if rx.recvHead in rx.received {
      ReleaseOne(rx, sent, head, held, taken);
      AdvanceReleases(Released(rx), sent, head + 1, held - {head}, taken);
    } else {
      HeadNotHeld(rx, sent, head, held, taken);
    }
  }

  lemma HeadNotHeld(rx: Rx, sent: seq<Slot>, head: nat, held: set<nat>, taken: seq<byte>)
    requires RxRel(rx, sent, head, held, taken + rx.ready)
    requires rx.recvHead !in rx.received
    ensures head !in held
  {
    AbsAtOf(head, head);
  }

  /** What releasing does to the set of received numbers: nothing. */
  lemma {:induction false} ReleaseKeepsGot(head: nat, held: set<nat>)
    ensures var r := ReleasedTo(head, held);
            && head <= r.0
            && (forall k: nat :: (k < r.0 || k in r.1) <==> (k < head || k in held))
            && r.1 <= held
            && (r.0 > head ==> r.0 - 1 in held)
    decreases |held|
  {
    if head in held {
      var held' := held - {head};
      ReleaseKeepsGot(head + 1, held');
      forall k: nat
        ensures (k < head + 1 || k in held') <==> (k < head || k in held)
      {
        if k == head {}
      }
    }
  }

  lemma StoreOne(rx: Rx, sent: seq<Slot>, head: nat, held: set<nat>, out: seq<byte>, abs: nat)
    requires RxRel(rx, sent, head, held, out)
    requires head <= abs < |sent| && abs < head + WINDOW
    ensures RxRel(rx.(received := rx.received[SeqOf(abs) := sent[abs]]), sent, head, held + {abs}, out)
  {
    AbsAtOf(head, abs);
    hide SlotBytes, AbsAt, SeqOf;
    var rx' := rx.(received := rx.received[SeqOf(abs) := sent[abs]]);
    forall b: byte
      ensures b in rx'.received <==> AbsAt(head, b) in held + {abs}
      ensures b in rx'.received ==> rx'.received[b] == sent[AbsAt(head, b)]
    {
      AbsAtRange(head, b);
      assert b in rx'.received <==> b in rx.received || b == SeqOf(abs);
    }
  }

  // ---- Each step keeps the invariant ----

  lemma InitInv(maxPacketBytes: nat)
    ensures Inv(Init(maxPacketBytes))
  {}

  /** Nothing at or after the oldest unacknowledged number is past the window. */
  lemma HeadFacts(d: Dir)
    requires Inv(d)
    ensures |d.sent| <= d.head + WINDOW
    ensures d.tags != [] ==> d.tags[0] <= d.head
    ensures d.tags == [] ==> d.head == |d.sent|
  {
    if d.head < |d.sent| {
      assert d.head in d.tags;
      var i :| 0 <= i < |d.tags| && d.tags[i] == d.head;
    } else if d.tags != [] {
      assert Carries(d.tx.unacked[0].packet, d.tags[0], d.sent);
    }
  }

  lemma InvIsSafe(d: Dir)
    requires Inv(d)
    ensures Safe(d)
  {
    SlotBytesPrefix(d.sent, d.head);
    HeadFacts(d);
    if d.flight != [] {
      var p := d.flight[0];
      assert Carries(p.packet, p.abs, d.sent);
      WindowIsExact(d.head, p.abs, d.rx);
    }
    if d.acks != [] {
      forall i | 0 <= i < |d.tags|
        ensures d.tx.unacked[i].packet.seq_ == d.acks[0].seq_ <==> d.tags[i] == d.acks[0].abs
      {
        AckHitsOwnPacket(d, i);
      }
    }
  }

  lemma AckHitsOwnPacket(d: Dir, i: nat)
    requires Inv(d) && d.acks != [] && i < |d.tags|
    ensures d.tx.unacked[i].packet.seq_ == d.acks[0].seq_ <==> d.tags[i] == d.acks[0].abs
  {
    var a := d.acks[0];
    assert AckRel(d, a);
    assert Carries(d.tx.unacked[i].packet, d.tags[i], d.sent);
    assert Carries(d.tx.unacked[0].packet, d.tags[0], d.sent);
    // The oldest unacked packet is no newer than the head the ack was sent at.
    if a.head < |d.sent| {
      var k :| 0 <= k < |d.tags| && d.tags[k] == a.head;
      assert d.tags[0] <= a.head;
    }
    assert d.tags[0] <= d.tags[i];
    if d.tx.unacked[i].packet.seq_ == a.seq_ {
      SameSeqSameNumber(d.tags[i], a.abs);
    }
  }

  lemma SendTx(d: Dir, d': Dir, step: Step)
    requires Inv(d) && step.Send? && Enabled(d, step, WINDOW)
    requires d' == Apply(d, step)
    ensures TxRel(d', WINDOW)
    ensures Carries(d'.flight[|d.flight|].packet, |d.sent|, d'.sent)
    ensures forall t :: t in d'.tags <==> t in d.tags || t == |d.sent|
  {
    hide RxRel, FlightRel, AcksRel, SlotOf, Carries;
    assert d'.tags[|d.tags|] == |d.sent|;
    NewCarries(d, d', step);
    forall i | 0 <= i < |d'.tags|
      ensures Carries(d'.tx.unacked[i].packet, d'.tags[i], d'.sent)
      ensures i < |d.tags| ==> d'.tags[i] < |d.sent|
    {
      if i < |d.tags| {
        StillCarries(d.tx.unacked[i].packet, d.tags[i], d.sent, SlotOf(NextPacket(d.tx, step.opcode, step.payload)));
      }
    }
  }

  lemma StillCarries(p: Packet, abs: nat, sent: seq<Slot>, slot: Slot)
    requires Carries(p, abs, sent)
    ensures Carries(p, abs, sent + [slot]) && abs < |sent|
  {}

  lemma NewCarries(d: Dir, d': Dir, step: Step)
    requires TxRel(d, WINDOW) && step.Send? && Possible(d, step)
    requires d' == Apply(d, step)
    ensures Carries(NextPacket(d.tx, step.opcode, step.payload), |d.sent|, d'.sent)
    ensures d'.tx.nextSeq == SeqOf(|d'.sent|)
  {
    NextSeqOf(|d.sent|);
  }

  lemma SendKeepsInv(d: Dir, step: Step)
    requires Inv(d) && step.Send? && Enabled(d, step, WINDOW)
    ensures Inv(Apply(d, step))
  {
    var d' := Apply(d, step);
    HeadFacts(d);
    SendTx(d, d', step);
    assert d'.sent[..d.head] == d.sent[..d.head];
    hide Carries, TxRel, SlotOf, SlotBytes;
    forall j | 0 <= j < |d'.acks|
      ensures AckRel(d', d'.acks[j])
    {
      assert AckRel(d, d.acks[j]);
    }
    FlightGrows(d, d', [d'.flight[|d.flight|]]);
  }

  /** Adding packets no older than the oldest unacknowledged one, in order. */
  lemma FlightGrows(d: Dir, d': Dir, more: seq<Data>)
    requires FlightRel(d)
    requires d'.flight == d.flight + more
    requires d'.head == d.head && d'.held == d.held && d.sent <= d'.sent
    requires d.head <= |d.sent| && (forall g :: g in d.held ==> g < |d.sent|)
    requires forall j :: 0 <= j < |more| ==>
      Carries(more[j].packet, more[j].abs, d'.sent) && |d.sent| <= more[j].abs + WINDOW
    requires forall i, j :: 0 <= i < j < |more| ==> more[i].abs < more[j].abs
    ensures FlightRel(d')
  {
    var n := |d.flight|;
    forall j | 0 <= j < |d'.flight|
      ensures Carries(d'.flight[j].packet, d'.flight[j].abs, d'.sent)
      ensures d'.head <= d'.flight[j].abs + WINDOW
      ensures forall g :: g in d'.held ==> g < d'.flight[j].abs + WINDOW
    {
      if j < n {
        assert Carries(d.flight[j].packet, d.flight[j].abs, d.sent);
      } else {
        assert d'.flight[j] == more[j - n];
      }
    }
    forall i, j | 0 <= i < j < |d'.flight|
      ensures d'.flight[i].abs < d'.flight[j].abs + WINDOW
    {
      if i < n {
        assert Carries(d.flight[i].packet, d.flight[i].abs, d.sent);
      }
      if j >= n {
        assert d'.flight[j] == more[j - n];
        if i >= n {
          assert d'.flight[i] == more[i - n];
        }
      }
    }
  }

  lemma FlaggedKeepsBase(opcode: byte)
    ensures BaseOpcode(Flagged(opcode)) == BaseOpcode(opcode)
  {}

  lemma ResendCarries(p: Pending, abs: nat, sent: seq<Slot>, tick: u32)
    requires Carries(p.packet, abs, sent)
    ensures Carries(Resend(p, tick).packet, abs, sent)
  {
    FlaggedKeepsBase(p.packet.opcode);
  }

  /** Resent packets carry what their numbers say, oldest first, none older
      than `oldest`. */
  ghost predicate InOrder(more: seq<Data>, oldest: nat, sent: seq<Slot>) {
    && (forall j :: 0 <= j < |more| ==> Carries(more[j].packet, more[j].abs, sent) && oldest <= more[j].abs)
    && (forall i, j :: 0 <= i < j < |more| ==> more[i].abs < more[j].abs)
  }

  lemma {:induction false} ResentDataFacts(unacked: seq<Pending>, tags: seq<nat>, oldest: nat, tick: u32,
      sent: seq<Slot>)
    requires |tags| == |unacked|
    requires forall i :: 0 <= i < |tags| ==> Carries(unacked[i].packet, tags[i], sent) && oldest <= tags[i]
    requires forall i, j :: 0 <= i < j < |tags| ==> tags[i] < tags[j]
    ensures InOrder(ResentData(unacked, tags, tick), oldest, sent)
    decreases |unacked|
  {
    hide Carries, Resend, Due;
    if unacked != [] {
      ResendCarries(unacked[0], tags[0], sent, tick);
      ResentDataFacts(unacked[1..], tags[1..], tags[0] + 1, tick, sent);
      var rest := ResentData(unacked[1..], tags[1..], tick);
      if Due(unacked[0], tick) {
        Prepend(Data(tags[0], Resend(unacked[0], tick).packet), rest);
      } else {
        ConcatEmpty(rest);
      }
    }
  }

  lemma LaterTags(tags: seq<nat>)
    requires tags != []
    requires forall i, j :: 0 <= i < j < |tags| ==> tags[i] < tags[j]
    ensures forall t :: t in tags <==> t == tags[0] || t in tags[1..]
    ensures forall t :: t in tags[1..] ==> tags[0] < t
  {
    SplitAt(tags, 1);
  }

  /** Acknowledgements under way depend only on what is sent, got and unacked. */
  lemma AcksCarryOver(d: Dir, d': Dir)
    requires AcksRel(d)
    requires d'.acks == d.acks && d'.sent == d.sent && d'.tags == d.tags && d'.head == d.head && d'.held == d.held
    ensures AcksRel(d')
  {
    forall j | 0 <= j < |d'.acks|
      ensures AckRel(d', d'.acks[j])
    {
      assert AckRel(d, d.acks[j]);
    }
  }

  lemma TickTx(d: Dir, d': Dir)
    requires TxRel(d, WINDOW)
    requires d' == Apply(d, Tick)
    ensures TxRel(d', WINDOW)
  {
    var now := NextTick(d.tx.tick);
    ResendAllAt(d.tx.unacked, now);
    hide Carries;
    forall i | 0 <= i < |d'.tags|
      ensures Carries(d'.tx.unacked[i].packet, d'.tags[i], d'.sent)
    {
      ResendCarries(d.tx.unacked[i], d.tags[i], d.sent, now);
    }
  }

  lemma NothingToResend(d: Dir, now: u32)
    requires TxRel(d, WINDOW)
    ensures d.tags == [] ==> ResentData(d.tx.unacked, d.tags, now) == []
    ensures d.tags != [] ==> |d.sent| <= d.tags[0] + WINDOW
    ensures forall i :: 0 <= i < |d.tags| ==> d.tags[0] <= d.tags[i]
  {}

  lemma TickKeepsInv(d: Dir)
    requires Inv(d)
    ensures Inv(Apply(d, Tick))
  {
    var d' := Apply(d, Tick);
    var now := NextTick(d.tx.tick);
    TickTx(d, d');
    ResentDataFacts(d.tx.unacked, d.tags, if d.tags == [] then 0 else d.tags[0], now, d.sent);
    HeadFacts(d);
    var more := ResentData(d.tx.unacked, d.tags, now);
    NothingToResend(d, now);
    hide Carries, Resend, ResentData, TxRel, RxRel;
    FlightGrows(d, d', more);
    AcksCarryOver(d, d');
  }

  lemma LoseDataKeepsInv(d: Dir, i: nat)
    requires Inv(d) && i < |d.flight|
    ensures Inv(Apply(d, LoseData(i)))
  {
    hide Carries, RxRel, AckRel;
    var d' := Apply(d, LoseData(i));
    assert forall j :: 0 <= j < |d'.flight| ==> d'.flight[j] == d.flight[if j < i then j else j + 1];
    AcksCarryOver(d, d');
    TxCarriesOver(d, d');
  }

  lemma TxCarriesOver(d: Dir, d': Dir)
    requires TxRel(d, WINDOW)
    requires d'.tx == d.tx && d'.sent == d.sent && d'.tags == d.tags
    requires forall k :: Got(d, k) ==> Got(d', k)
    ensures TxRel(d', WINDOW)
  {}

  lemma LoseAckKeepsInv(d: Dir, i: nat)
    requires Inv(d) && i < |d.acks|
    ensures Inv(Apply(d, LoseAck(i)))
  {
    var d' := Apply(d, LoseAck(i));
    hide Carries, RxRel;
    TxCarriesOver(d, d');
    assert forall j :: 0 <= j < |d'.acks| ==> d'.acks[j] == d.acks[if j < i then j else j + 1];
    forall j | 0 <= j < |d'.acks|
      ensures AckRel(d', d'.acks[j])
    {
      assert AckRel(d, d.acks[if j < i then j else j + 1]);
    }
  }

  lemma {:induction false} RetainedFacts(unacked: seq<Pending>, tags: seq<nat>, s: byte, abs: nat, sent: seq<Slot>)
    requires |tags| == |unacked|
    requires forall i :: 0 <= i < |tags| ==> Carries(unacked[i].packet, tags[i], sent)
    requires forall i, j :: 0 <= i < j < |tags| ==> tags[i] < tags[j]
    requires forall i :: 0 <= i < |tags| ==> (unacked[i].packet.seq_ == s <==> tags[i] == abs)
    ensures var kept, left := Retained(unacked, s), RetainedTags(unacked, tags, s);
            && |left| == |kept|
            && (forall i :: 0 <= i < |left| ==> Carries(kept[i].packet, left[i], sent))
            && (forall i, j :: 0 <= i < j < |left| ==> left[i] < left[j])
            && (forall t :: t in left <==> t in tags && t != abs)
    decreases |unacked|
  {
    hide Carries;
    if unacked != [] {
      LaterTags(tags);
      RetainedFacts(unacked[1..], tags[1..], s, abs, sent);
      var kept, left := Retained(unacked, s), RetainedTags(unacked, tags, s);
      var kept1, left1 := Retained(unacked[1..], s), RetainedTags(unacked[1..], tags[1..], s);
      if unacked[0].packet.seq_ == s {
        ConcatEmpty(kept1);
        ConcatEmpty(left1);
      } else {
        assert forall i :: 0 <= i < |left1| ==> left1[i] in left1;
        Prepend(unacked[0], kept1);
        Prepend(tags[0], left1);
      }
    }
  }

  lemma Prepend<T>(x: T, s: seq<T>)
    ensures var r := [x] + s;
            && |r| == |s| + 1 && r[0] == x
            && (forall i :: 0 < i < |r| ==> r[i] == s[i - 1])
            && (forall y :: y in r <==> y == x || y in s)
  {}

  lemma NextAckFacts(d: Dir)
    requires Inv(d) && d.acks != []
    ensures Got(d, d.acks[0].abs)
    ensures forall i ::
      0 <= i < |d.tags| ==> (d.tx.unacked[i].packet.seq_ == d.acks[0].seq_ <==> d.tags[i] == d.acks[0].abs)
  {
    InvIsSafe(d);
    assert AckRel(d, d.acks[0]);
  }

  lemma AckTx(d: Dir, d': Dir)
    requires Inv(d) && d.acks != []
    requires d' == Apply(d, DeliverAck)
    ensures TxRel(d', WINDOW)
    ensures forall t :: t in d'.tags <==> t in d.tags && t != d.acks[0].abs
  {
    hide Carries, RxRel, FlightRel, AcksRel, Retained, RetainedTags, Safe;
    var a := d.acks[0];
    NextAckFacts(d);
    RetainedFacts(d.tx.unacked, d.tags, a.seq_, a.abs, d.sent);
    if d'.tags != [] {
      assert d'.tags[0] in d'.tags;
      assert d.tags[0] <= d'.tags[0];
    }
  }

  lemma AckKeepsInv(d: Dir)
    requires Inv(d) && d.acks != []
    ensures Inv(Apply(d, DeliverAck))
  {
    var d' := Apply(d, DeliverAck);
    AckTx(d, d');
    hide Carries, RxRel, TxRel, Retained, RetainedTags;
    assert forall j :: 0 <= j < |d'.acks| ==> d'.acks[j] == d.acks[j + 1];
    forall j | 0 <= j < |d'.acks|
      ensures AckRel(d', d'.acks[j])
    {
      assert AckRel(d, d.acks[j + 1]);
      assert d.acks[0].abs != d.acks[j + 1].head;
    }
  }

  lemma TakeKeepsInv(d: Dir)
    requires Inv(d)
    ensures Inv(Apply(d, Take))
  {
    var d' := Apply(d, Take);
    ConcatEmpty(d.taken + d.rx.ready);
    AcksCarryOver(d, d');
    TxCarriesOver(d, d');
  }

  /** What a delivery changes at the receiver: the packet's number is got, what
      can be released is, and the packet is acknowledged. */
  ghost predicate Delivered(d: Dir, d': Dir, abs: nat, s: byte) {
    && RxRel(d'.rx, d.sent, d'.head, d'.held, d.taken + d'.rx.ready)
    && d'.head !in d'.held
    && d.head <= d'.head
    && (forall k: nat :: Got(d', k) <==> Got(d, k) || k == abs)
    && (forall g :: g in d'.held ==> g in d.held || g == abs)
    && (d'.head > d.head ==> d'.head - 1 in d.held || d'.head - 1 == abs)
    && d'.acks == d.acks + [Ack(abs, d'.head, s)]
  }

  lemma DeliverRx(d: Dir)
    requires Inv(d) && d.flight != []
    ensures Delivered(d, Received(d), d.flight[0].abs, d.flight[0].packet.seq_)
  {
    var Data(abs, p) := d.flight[0];
    ArrivalFacts(d);
    if InWindow(d.rx, p.seq_) {
      StoreAndRelease(d, abs, p.seq_);
    } else {
      hide TxRel, FlightRel, AcksRel, RxRel, Carries;
    }
  }

  lemma ArrivalFacts(d: Dir)
    requires Inv(d) && d.flight != []
    ensures var Data(abs, p) := d.flight[0];
            && abs < |d.sent| && abs < d.head + WINDOW && p.seq_ == SeqOf(abs)
            && (InWindow(d.rx, p.seq_) <==> d.head <= abs)
            && (!IsStream(p) || Acks(d.rx, p.seq_, p.payload))
            && Received(d).rx == (if InWindow(d.rx, p.seq_)
                                  then Advanced(d.rx.(received := d.rx.received[SeqOf(abs) := d.sent[abs]]))
                                  else d.rx)
  {
    var Data(abs, p) := d.flight[0];
    assert Carries(p, abs, d.sent);
    HeadFacts(d);
    WindowIsExact(d.head, abs, d.rx);
    hide TxRel, AcksRel, RxRel, FlightRel, SeqOf;
  }

  lemma StoreAndRelease(d: Dir, abs: nat, s: byte)
    requires RxRel(d.rx, d.sent, d.head, d.held, d.taken + d.rx.ready)
    requires d.head <= abs < |d.sent| && abs < d.head + WINDOW && s == SeqOf(abs)
    ensures var r := ReleasedTo(d.head, d.held + {abs});
            var rx' := Advanced(d.rx.(received := d.rx.received[s := d.sent[abs]]));
            && RxRel(rx', d.sent, r.0, r.1, d.taken + rx'.ready)
            && r.0 !in r.1
            && d.head <= r.0
            && (forall k: nat :: (k < r.0 || k in r.1) <==> (k < d.head || k in d.held || k == abs))
            && (forall g :: g in r.1 ==> g in d.held || g == abs)
            && (r.0 > d.head ==> r.0 - 1 in d.held || r.0 - 1 == abs)
  {
    hide RxRel, Advanced, ReleasedTo, SeqOf;
    var stored := d.rx.(received := d.rx.received[s := d.sent[abs]]);
    StoreOne(d.rx, d.sent, d.head, d.held, d.taken + d.rx.ready, abs);
    AdvanceReleases(stored, d.sent, d.head, d.held + {abs}, d.taken);
    ReleaseKeepsGot(d.head, d.held + {abs});
    forall k: nat
      ensures k in d.held + {abs} <==> k in d.held || k == abs
    {}
  }

  lemma DeliverFlight(d: Dir, d': Dir)
    requires Inv(d) && d.flight != [] && d' == Received(d)
    ensures FlightRel(d')
  {
    DeliverRx(d);
    hide Received, RxRel, TxRel, AcksRel, Carries, ReleasedTo, StreamAccepted, ControlAccepted, InWindow, Acks, Got;
    DeliveryKeeps(d);
    assert forall j :: 0 <= j < |d'.flight| ==> d'.flight[j] == d.flight[j + 1];
    forall j | 0 <= j < |d'.flight|
      ensures d'.head <= d'.flight[j].abs + WINDOW
      ensures forall g :: g in d'.held ==> g < d'.flight[j].abs + WINDOW
    {
      assert d.flight[0].abs < d.flight[j + 1].abs + WINDOW;
    }
  }

  lemma DeliveryKeeps(d: Dir)
    requires d.flight != []
    ensures var d' := Received(d);
            && d'.flight == d.flight[1..] && d'.tx == d.tx && d'.sent == d.sent
            && d'.tags == d.tags && d'.taken == d.taken
  {}

  lemma DeliverAcks(d: Dir, d': Dir)
    requires Inv(d) && d.flight != [] && d' == Received(d)
    ensures AcksRel(d')
  {
    DeliverRx(d);
    DeliveryKeeps(d);
    var Data(abs, p) := d.flight[0];
    assert Carries(p, abs, d.sent);
    hide Received, RxRel, ReleasedTo, StreamAccepted, ControlAccepted, InWindow, Acks, SeqOf;
    assert !Got(d', d'.head) && !Got(d, d'.head);
    forall j | 0 <= j < |d'.acks|
      ensures AckRel(d', d'.acks[j])
      ensures d'.acks[j].abs != d'.head
    {
      if j < |d.acks| {
        assert AckRel(d, d.acks[j]);
      }
    }
  }

  lemma DeliverKeepsInv(d: Dir)
    requires Inv(d) && d.flight != []
    ensures Inv(Apply(d, DeliverData))
  {
    var d' := Received(d);
    DeliverRx(d);
    DeliveryKeeps(d);
    DeliverFlight(d, d');
    DeliverAcks(d, d');
    hide Received, RxRel, FlightRel, AcksRel;
    TxCarriesOver(d, d');
  }

  lemma StepKeepsInv(d: Dir, step: Step)
    requires Inv(d) && Enabled(d, step, WINDOW)
    ensures Inv(Apply(d, step))
  {
    match step
    case Send(_, _, _, _) => SendKeepsInv(d, step);
    case Tick => TickKeepsInv(d);
    case LoseData(i) => LoseDataKeepsInv(d, i);
    case LoseAck(i) => LoseAckKeepsInv(d, i);
    case DeliverData => DeliverKeepsInv(d);
    case DeliverAck => AckKeepsInv(d);
    case Take => TakeKeepsInv(d);
  }
}
