/** From wherever a run has come, without further losses everything arrives:
    three ticks put every unacknowledged packet on the wire again, and reading
    what is under way retires them all. */
module WindowDrain {
  import opened Bytes
  import opened Packets
  import opened Links
  import opened Seqs
  import opened SlidingWindow
  import opened WindowRuns

  /** A step that sends nothing new and loses nothing. */
  predicate Drains(step: Step) { step.Tick? || step.DeliverData? || step.DeliverAck? }

  predicate AllDrain(steps: seq<Step>) {
    forall i :: 0 <= i < |steps| ==> Drains(steps[i])
  }

  /** A copy of the packet, or an acknowledgement of it, is under way. */
  predicate Covered(d: Dir, t: nat) {
    || (exists j :: 0 <= j < |d.flight| && d.flight[j].abs == t)
    || (exists j :: 0 <= j < |d.acks| && d.acks[j].abs == t)
  }

  predicate AllCovered(d: Dir) {
    forall i :: 0 <= i < |d.tags| ==> Covered(d, d.tags[i])
  }

  predicate Finished(d: Dir) {
    && d.tags == [] && d.tx.unacked == [] && d.flight == [] && d.acks == []
    && d.taken + d.rx.ready == SlotBytes(d.sent)
  }

  lemma {:induction false} DrainsKeep(d: Dir, steps: seq<Step>, gate: Gate)
    requires |d.tags| == |d.tx.unacked| && Inv(d) && AllDrain(steps) && Legal(d, steps, gate)
    ensures Inv(After(d, steps, gate)) && After(d, steps, gate).sent == d.sent
    decreases |steps|
  {
    hide Inv;
    if steps != [] {
      DrainKeeps(d, steps[0]);
      DrainsKeep(Apply(d, steps[0]), steps[1..], gate);
    }
  }

  lemma DrainKeeps(d: Dir, step: Step)
    requires |d.tags| == |d.tx.unacked| && Inv(d) && Drains(step) && Possible(d, step)
    ensures Inv(Apply(d, step)) && Apply(d, step).sent == d.sent
  {
    hide Inv;
    StepKeepsInv(d, step);
    if step.DeliverData? {
      DeliveryKeeps(d);
    }
  }

  lemma OneStep(d: Dir, step: Step, more: seq<Step>, gate: Gate)
    requires |d.tags| == |d.tx.unacked| && Drains(step) && Possible(d, step)
    requires Legal(Apply(d, step), more, gate)
    ensures AllDrain(more) ==> AllDrain([step] + more)
    ensures Legal(d, [step] + more, gate)
    ensures After(d, [step] + more, gate) == After(Apply(d, step), more, gate)
  {
    hide Apply;
    Prepend(step, more);
    assert ([step] + more)[1..] == more;
  }

  // ---- Reading what is under way ----

  predicate Reads(step: Step) { step.DeliverData? || step.DeliverAck? }

  predicate AllRead(steps: seq<Step>) {
    forall i :: 0 <= i < |steps| ==> Reads(steps[i])
  }

  predicate InFlight(d: Dir, k: nat) {
    exists j :: 0 <= j < |d.flight| && d.flight[j].abs == k
  }

  /** `v` after all that was under way from `d` was read: the packets were got,
      and what had one or an acknowledgement under way is retired. */
  ghost predicate ReadAway(d: Dir, v: Dir) {
    && v.flight == [] && v.acks == [] && v.sent == d.sent
    && (forall t :: t in v.tags <==> t in d.tags && !Covered(d, t))
    && (forall k: nat :: Got(v, k) <==> Got(d, k) || InFlight(d, k))
  }

  lemma DeliveryReads(d: Dir, v: Dir)
    requires Inv(d) && d.flight != [] && ReadAway(Received(d), v)
    ensures ReadAway(d, v)
  {
    hide Inv, Received, RxRel, Got;
    var d' := Received(d);
    DeliverRx(d);
    DeliveryKeeps(d);
    assert d'.acks[|d.acks|].abs == d.flight[0].abs;
    forall t: nat ensures Covered(d', t) <==> Covered(d, t) {
      DeliveryCovers(d, t);
    }
    forall k: nat ensures Got(d', k) || InFlight(d', k) <==> Got(d, k) || InFlight(d, k) {
      if InFlight(d, k) {
        var j :| 0 <= j < |d.flight| && d.flight[j].abs == k;
        assert j > 0 ==> d'.flight[j - 1].abs == k;
      }
    }
  }

  lemma DeliveryCovers(d: Dir, t: nat)
    requires Inv(d) && d.flight != []
    ensures Covered(Received(d), t) <==> Covered(d, t)
  {
    hide Inv, Received, RxRel, Got;
    var d' := Received(d);
    DeliverRx(d);
    DeliveryKeeps(d);
    if j :| 0 <= j < |d.flight| && d.flight[j].abs == t {
      if j > 0 {
        assert d'.flight[j - 1].abs == t;
      } else {
        assert d'.acks[|d.acks|].abs == t;
      }
    } else if j :| 0 <= j < |d.acks| && d.acks[j].abs == t {
      assert d'.acks[j].abs == t;
    }
    if j :| 0 <= j < |d'.acks| && d'.acks[j].abs == t {
      assert j < |d.acks| ==> d.acks[j].abs == t;
      assert j == |d.acks| ==> d.flight[0].abs == t;
    }
  }

  lemma AckReads(d: Dir, v: Dir)
    requires Inv(d) && |d.tags| == |d.tx.unacked| && d.acks != [] && ReadAway(Apply(d, DeliverAck), v)
    ensures ReadAway(d, v)
  {
    hide Inv, TxRel, Apply, Got;
    var d' := Apply(d, DeliverAck);
    AckTx(d, d');
    AckApplied(d);
    forall t ensures t in d'.tags && !Covered(d', t) <==> t in d.tags && !Covered(d, t) {
      if t != d.acks[0].abs && t in d.tags {
        if j :| 0 <= j < |d.acks| && d.acks[j].abs == t {
          assert d'.acks[j - 1].abs == t;
        }
        if j :| 0 <= j < |d'.acks| && d'.acks[j].abs == t {
          assert d.acks[j + 1].abs == t;
        }
      }
    }
    AckKeepsGot(d);
  }

  lemma AckKeepsGot(d: Dir)
    requires |d.tags| == |d.tx.unacked| && d.acks != []
    ensures var d' := Apply(d, DeliverAck);
      d'.sent == d.sent && d'.flight == d.flight && forall k: nat :: Got(d', k) <==> Got(d, k)
  {}

  /** Packets before acknowledgements, until nothing is under way. */
  lemma {:induction false} ReadUp(d: Dir, gate: Gate) returns (steps: seq<Step>)
    requires |d.tags| == |d.tx.unacked| && Inv(d)
    ensures AllRead(steps) && Legal(d, steps, gate)
    ensures Inv(After(d, steps, gate)) && ReadAway(d, After(d, steps, gate))
    decreases 2 * |d.flight| + |d.acks|
  {
    hide Inv, Apply, ReadAway, Received;
    if d.flight != [] {
      DrainKeeps(d, DeliverData);
      ReadIsShorter(d);
      var more := ReadUp(Apply(d, DeliverData), gate);
      OneStep(d, DeliverData, more, gate);
      steps := [DeliverData] + more;
      DeliveryReads(d, After(d, steps, gate));
    } else if d.acks != [] {
      DrainKeeps(d, DeliverAck);
      AckApplied(d);
      var more := ReadUp(Apply(d, DeliverAck), gate);
      OneStep(d, DeliverAck, more, gate);
      steps := [DeliverAck] + more;
      AckReads(d, After(d, steps, gate));
    } else {
      steps := [];
      NothingToRead(d);
    }
  }

  lemma NothingToRead(d: Dir)
    requires d.flight == [] && d.acks == []
    ensures ReadAway(d, d)
  {}

  lemma FirstIsIn(s: seq<nat>)
    ensures s == [] || s[0] in s
  {}

  /** With everything under way, reading it finishes. */
  lemma ReadingFinishes(d: Dir, v: Dir)
    requires Inv(v) && AllCovered(d) && ReadAway(d, v)
    ensures Finished(v)
  {
    hide RxRel, FlightRel, AcksRel, Covered;
    FirstIsIn(v.tags);
    HeadFacts(v);
    AllReleased(v);
  }

  lemma AllReleased(d: Dir)
    requires Inv(d) && d.head == |d.sent|
    ensures d.taken + d.rx.ready == SlotBytes(d.sent)
  {
    assert d.sent[..|d.sent|] == d.sent;
  }

  lemma ReadIsShorter(d: Dir)
    requires Inv(d) && |d.tags| == |d.tx.unacked| && d.flight != []
    ensures Apply(d, DeliverData) == Received(d)
    ensures |Received(d).flight| == |d.flight| - 1 && |Received(d).acks| == |d.acks| + 1
  {
    hide Inv, Received, RxRel;
    DeliverRx(d);
    DeliveryKeeps(d);
  }

  // ---- Putting everything under way ----

  /** Ticks since a packet was last sent. */
  function Age(d: Dir, i: nat): nat
    requires i < |d.tx.unacked|
  {
    (d.tx.tick - d.tx.unacked[i].sentTick) % 0x1_0000_0000
  }

  /** What is not under way was last sent at least `low` ticks ago, and is not
      yet due. */
  predicate Young(d: Dir, low: nat)
    requires |d.tags| == |d.tx.unacked|
  {
    forall i :: 0 <= i < |d.tags| ==> Covered(d, d.tags[i]) || low <= Age(d, i) < RETRANSMIT_AFTER_TICKS
  }

  lemma {:induction false} DueIsResent(unacked: seq<Pending>, tags: seq<nat>, tick: u32, i: nat) returns (j: nat)
    requires |tags| == |unacked| && i < |tags| && Due(unacked[i], tick)
    ensures j < |ResentData(unacked, tags, tick)| && ResentData(unacked, tags, tick)[j].abs == tags[i]
    decreases i
  {
    hide Due, Resend;
    if i == 0 {
      j := 0;
    } else {
      var k := DueIsResent(unacked[1..], tags[1..], tick, i - 1);
      j := if Due(unacked[0], tick) then k + 1 else k;
    }
  }

  /** A tick resends what is due; the rest ages by one. */
  lemma TickAges(d: Dir, i: nat)
    requires |d.tags| == |d.tx.unacked| && i < |d.tags|
    ensures var d' := Apply(d, Tick);
      && d'.tags == d.tags && |d'.tx.unacked| == |d.tx.unacked|
      && (Covered(d', d.tags[i])
          || (Age(d', i) < RETRANSMIT_AFTER_TICKS
              && (Age(d, i) < RETRANSMIT_AFTER_TICKS ==> Age(d', i) == Age(d, i) + 1)))
  {
    var d' := Apply(d, Tick);
    var now := NextTick(d.tx.tick);
    ResendAllAt(d.tx.unacked, now);
    hide ResendAll, ResentData;
    if Due(d.tx.unacked[i], now) {
      var j := DueIsResent(d.tx.unacked, d.tags, now, i);
      assert d'.flight[|d.flight| + j].abs == d.tags[i];
    } else {
      OneTickLater(d.tx.tick, d.tx.unacked[i].sentTick);
    }
  }

  lemma OneTickLater(tick: u32, sent: u32)
    ensures (tick - sent) % 0x1_0000_0000 < RETRANSMIT_AFTER_TICKS ==>
      (NextTick(tick) - sent) % 0x1_0000_0000 == (tick - sent) % 0x1_0000_0000 + 1
  {}

  lemma TickStaysCovered(d: Dir, t: nat)
    requires |d.tags| == |d.tx.unacked| && Covered(d, t)
    ensures Covered(Apply(d, Tick), t)
  {
    var d' := Apply(d, Tick);
    hide ResentData;
    if j :| 0 <= j < |d.flight| && d.flight[j].abs == t {
      assert d'.flight[j].abs == t;
    }
  }

  lemma FirstTick(d: Dir)
    requires |d.tags| == |d.tx.unacked|
    ensures Young(Apply(d, Tick), 0)
  {
    hide Apply, Covered, Age;
    var d' := Apply(d, Tick);
    forall i | 0 <= i < |d'.tags| ensures Covered(d', d'.tags[i]) || Age(d', i) < RETRANSMIT_AFTER_TICKS {
      TickKeepsTags(d);
      TickAges(d, i);
    }
  }

  lemma TickKeepsTags(d: Dir)
    requires |d.tags| == |d.tx.unacked|
    ensures Apply(d, Tick).tags == d.tags
  {}

  lemma NextTickAges(d: Dir, low: nat)
    requires |d.tags| == |d.tx.unacked| && Young(d, low)
    ensures Young(Apply(d, Tick), low + 1)
  {
    hide Apply, Covered, Age;
    var d' := Apply(d, Tick);
    TickKeepsTags(d);
    forall i | 0 <= i < |d'.tags| ensures Covered(d', d'.tags[i]) || low + 1 <= Age(d', i) < RETRANSMIT_AFTER_TICKS {
      TickAges(d, i);
      if Covered(d, d.tags[i]) {
        TickStaysCovered(d, d.tags[i]);
      }
    }
  }

  /** After three ticks everything unacknowledged is under way. */
  lemma ThreeTicks(d: Dir)
    requires |d.tags| == |d.tx.unacked|
    ensures AllCovered(Apply(Apply(Apply(d, Tick), Tick), Tick))
  {
    hide Apply, Covered;
    FirstTick(d);
    NextTickAges(Apply(d, Tick), 0);
    NextTickAges(Apply(Apply(d, Tick), Tick), 1);
  }

  // ---- The theorem ----

  lemma EverythingArrivesFrom(d: Dir, gate: Gate) returns (steps: seq<Step>)
    requires |d.tags| == |d.tx.unacked| && Inv(d)
    ensures AllDrain(steps) && Legal(d, steps, gate)
    ensures Finished(After(d, steps, gate)) && After(d, steps, gate).sent == d.sent
  {
    hide Inv, Apply, AllCovered, Finished, ReadAway;
    DrainKeeps(d, Tick);
    var d1 := Apply(d, Tick);
    DrainKeeps(d1, Tick);
    var d2 := Apply(d1, Tick);
    DrainKeeps(d2, Tick);
    ThreeTicks(d);
    var read := ReadUp(Apply(d2, Tick), gate);
    ReadingFinishes(Apply(d2, Tick), After(Apply(d2, Tick), read, gate));
    OneStep(d2, Tick, read, gate);
    OneStep(d1, Tick, [Tick] + read, gate);
    OneStep(d, Tick, [Tick] + ([Tick] + read), gate);
    steps := [Tick] + ([Tick] + ([Tick] + read));
    DrainsKeep(d, steps, gate);
  }

  /** However a run has gone and whatever it has lost, it can go on, losing and
      sending nothing, until nothing is unacknowledged or under way and every
      byte sent has been released. */
  lemma EverythingCanArrive(m: nat, run: seq<Step>) returns (more: seq<Step>)
    requires Legal(Init(m), run, BySpan(WINDOW))
    ensures AllDrain(more) && Legal(Init(m), run + more, BySpan(WINDOW))
    ensures var d := After(Init(m), run + more, BySpan(WINDOW));
      Finished(d) && d.sent == After(Init(m), run, BySpan(WINDOW)).sent
  {
    hide Inv, Finished;
    InitInv(m);
    RunKeepsInv(Init(m), run, BySpan(WINDOW));
    more := EverythingArrivesFrom(After(Init(m), run, BySpan(WINDOW)), BySpan(WINDOW));
    LegalAppend(Init(m), run, more, BySpan(WINDOW));
  }
}
