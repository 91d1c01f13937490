/** The client's own gate: it asks, command by command, whether fewer commands
    are in flight than the device can queue and fewer packets unacknowledged than
    it has slots for, and lets a Neutral's cancel through unasked. */
module ClientGate {
  import opened Bytes
  import opened Packets
  import opened Links
  import opened Seqs
  import opened SlidingWindow
  import opened WindowRuns
  import opened WindowDrain

  /** The gate's two limits, and how many packets a command and a cancel take; a
      cancel of none is never sent. */
  datatype Limits = Limits(capacity: nat, maxUnacked: nat, packets: nat, cancel: nat)

  /** The link, the commands in flight and the replies to the first of them that
      are under way. For each command, oldest first, `ends` has the number of the
      packet after its last; for each reply `reports` has how many
      acknowledgements are ahead of it on the line. */
  datatype Client = Client(d: Dir, ends: seq<nat>, reports: seq<nat>)

  datatype Move =
    | Command
    | Cancel
    | Report            // the device is done with a command it has read whole
    | Read              // the client reads the reply
    | Line(step: Step)  // the link goes on, but for sending

  predicate ValidClient(c: Client) { |c.d.tags| == |c.d.tx.unacked| }

  predicate CanMove(c: Client, move: Move, l: Limits, ackLoss: bool) {
    match move
    case Command => |c.ends| < l.capacity && |c.d.tx.unacked| < l.maxUnacked
    case Cancel => c.ends != [] && l.cancel > 0
    case Report => |c.reports| < |c.ends| && c.ends[|c.reports|] <= c.d.head
    case Read => c.reports != [] && c.ends != [] && c.reports[0] == 0
    case Line(step) => Possible(c.d, step) && !step.Send? && (step.LoseAck? ==> ackLoss)
  }

  function SentMany(d: Dir, n: nat): (d': Dir)
    requires |d.tags| == |d.tx.unacked|
    ensures |d'.tags| == |d'.tx.unacked|
  {
    if n == 0 then d else Apply(SentMany(d, n - 1), PIECE)
  }

  /** The replies' places on the line when the acknowledgement at `i` is gone. */
  function Passed(reports: seq<nat>, i: nat): (r: seq<nat>)
    ensures |r| == |reports|
  {
    seq(|reports|, k requires 0 <= k < |reports| => if i < reports[k] then reports[k] - 1 else reports[k])
  }

  function Moved(c: Client, move: Move, l: Limits, ackLoss: bool): (c': Client)
    requires ValidClient(c) && CanMove(c, move, l, ackLoss)
    ensures ValidClient(c')
  {
    match move
    case Command => c.(d := SentMany(c.d, l.packets), ends := c.ends + [|c.d.sent| + l.packets])
    case Cancel => Client(SentMany(c.d, l.cancel), [], [])
    case Report => c.(reports := c.reports + [|c.d.acks|])
    case Read => c.(ends := c.ends[1..], reports := c.reports[1..])
    case Line(step) =>
      c.(d := Apply(c.d, step),
         reports := match step
                    case DeliverAck => Passed(c.reports, 0)
                    case LoseAck(i) => Passed(c.reports, i)
                    case _ => c.reports)
  }

  function Begin(m: nat): Client { Client(Init(m), [], []) }

  predicate LegalRun(c: Client, run: seq<Move>, l: Limits, ackLoss: bool)
    requires ValidClient(c)
    decreases |run|
  {
    run != [] ==> CanMove(c, run[0], l, ackLoss) && LegalRun(Moved(c, run[0], l, ackLoss), run[1..], l, ackLoss)
  }

  function AfterRun(c: Client, run: seq<Move>, l: Limits, ackLoss: bool): (c': Client)
    requires ValidClient(c) && LegalRun(c, run, l, ackLoss)
    ensures ValidClient(c')
    decreases |run|
  {
    if run == [] then c else AfterRun(Moved(c, run[0], l, ackLoss), run[1..], l, ackLoss)
  }

  ghost predicate GateIsSafe(l: Limits, ackLoss: bool) {
    forall m: nat, run :: LegalRun(Begin(m), run, l, ackLoss) ==> Safe(AfterRun(Begin(m), run, l, ackLoss).d)
  }

  // ---- Sending several packets ----

  lemma {:induction false} SentManyKeeps(d: Dir, n: nat)
    requires Inv(d) && |d.tags| == |d.tx.unacked| && Span(d) + n <= WINDOW
    ensures Inv(SentMany(d, n)) && Span(SentMany(d, n)) == Span(d) + n
    decreases n
  {
    hide Inv, Apply;
    if n > 0 {
      SentManyKeeps(d, n - 1);
      SendKeepsInv(SentMany(d, n - 1), PIECE);
      OneSent(SentMany(d, n - 1));
    }
  }

  lemma OneSent(d: Dir)
    requires |d.tags| == |d.tx.unacked|
    ensures var d' := Apply(d, PIECE);
      && d'.tags == d.tags + [|d.sent|] && |d'.sent| == |d.sent| + 1 && Span(d') == Span(d) + 1
      && d'.flight == d.flight + [Data(|d.sent|, NextPacket(d.tx, ASK_STREAM_DATA, PAYLOAD))]
      && d'.rx == d.rx && d'.acks == d.acks && d'.head == d.head && d'.held == d.held
      && d'.tx.nextSeq == Links.Next(d.tx.nextSeq)
  {}

  /** The packets sent are numbered on, in order; the receiver is as it was. */
  lemma {:induction false} SentManyFacts(d: Dir, n: nat)
    requires |d.tags| == |d.tx.unacked|
    ensures var d' := SentMany(d, n);
      && d'.rx == d.rx && d'.acks == d.acks && d'.head == d.head && d'.held == d.held
      && |d'.sent| == |d.sent| + n && |d'.flight| == |d.flight| + n
      && d'.tx.nextSeq == (d.tx.nextSeq + n) % 256
      && (forall i :: 0 <= i < |d.flight| ==> d'.flight[i] == d.flight[i])
      && (forall i :: |d.flight| <= i < |d'.flight| ==>
            && d'.flight[i].abs == |d.sent| + i - |d.flight|
            && d'.flight[i].packet.seq_ == (d.tx.nextSeq + i - |d.flight|) % 256)
    decreases n
  {
    hide Apply;
    if n > 0 {
      SentManyFacts(d, n - 1);
      OneSent(SentMany(d, n - 1));
    }
  }

  lemma {:induction false} SentManyTags(d: Dir, n: nat)
    requires |d.tags| == |d.tx.unacked|
    ensures forall t :: t in SentMany(d, n).tags <==> t in d.tags || |d.sent| <= t < |d.sent| + n
    decreases n
  {
    hide Apply;
    if n > 0 {
      SentManyTags(d, n - 1);
      SentManyFacts(d, n - 1);
      OneSent(SentMany(d, n - 1));
    }
  }

  // ---- The link between sends ----

  /** An acknowledgement of `t` is among the first `n`. */
  predicate AckWithin(d: Dir, t: nat, n: nat) {
    exists j :: 0 <= j < n && j < |d.acks| && d.acks[j].abs == t
  }

  lemma SpanShrinks(d: Dir, step: Step)
    requires Inv(d) && |d.tags| == |d.tx.unacked| && Possible(d, step) && !step.Send?
    ensures Inv(Apply(d, step)) && Span(Apply(d, step)) <= Span(d)
    ensures Apply(d, step).sent == d.sent && forall t :: t in Apply(d, step).tags ==> t in d.tags
  {
    StepKeepsInv(d, step);
    var d' := Apply(d, step);
    if step.DeliverAck? {
      AckTx(d, d');
      AckApplied(d);
      FirstIsLeast(d);
      hide Inv, Apply;
      FirstIsIn(d'.tags);
    } else if step.DeliverData? {
      DeliveryKeeps(d);
    } else {
      hide Inv;
    }
  }

  lemma FirstIsLeast(d: Dir)
    requires Inv(d)
    ensures forall t :: t in d.tags ==> d.tags[0] <= t < |d.sent|
  {
    forall i | 0 <= i < |d.tags| ensures d.tags[0] <= d.tags[i] < |d.sent| {
      assert Carries(d.tx.unacked[i].packet, d.tags[i], d.sent);
    }
  }

  // ---- Stop and wait ----

  /** With one packet allowed, a command waits until nothing is unacknowledged,
      and one cancel may follow it. */
  ghost predicate Waits(c: Client, l: Limits) {
    && Inv(c.d) && Span(c.d) <= l.packets + l.cancel && (c.ends != [] ==> Span(c.d) <= l.packets)
  }

  lemma MoveWaits(c: Client, move: Move, l: Limits, ackLoss: bool)
    requires ValidClient(c) && Waits(c, l) && CanMove(c, move, l, ackLoss)
    requires l.maxUnacked == 1 && l.packets + l.cancel <= WINDOW
    ensures Waits(Moved(c, move, l, ackLoss), l)
  {
    hide Inv, Apply, SentMany;
    match move
    case Command => SentManyKeeps(c.d, l.packets);
    case Cancel => SentManyKeeps(c.d, l.cancel);
    case Report =>
    case Read =>
    case Line(step) => SpanShrinks(c.d, step);
  }

  lemma {:induction false} RunWaits(c: Client, run: seq<Move>, l: Limits, ackLoss: bool)
    requires ValidClient(c) && Waits(c, l) && LegalRun(c, run, l, ackLoss)
    requires l.maxUnacked == 1 && l.packets + l.cancel <= WINDOW
    ensures Waits(AfterRun(c, run, l, ackLoss), l)
    decreases |run|
  {
    hide Waits, CanMove, Moved;
    if run != [] {
      MoveWaits(c, run[0], l, ackLoss);
      RunWaits(Moved(c, run[0], l, ackLoss), run[1..], l, ackLoss);
    }
  }

  // ---- No acknowledgement is lost ----

  /** Where the oldest command in flight begins. */
  function Floor(c: Client, l: Limits): int { |c.d.sent| - |c.ends| * l.packets }

  predicate InStep(c: Client, l: Limits) {
    && |c.ends| <= l.capacity && |c.reports| <= |c.ends|
    && (forall k :: 0 <= k < |c.ends| ==> c.ends[k] == |c.d.sent| - (|c.ends| - 1 - k) * l.packets)
  }

  /** What is unacknowledged belongs to a command in flight. What was got has an
      acknowledgement under way, and one ahead of the reply to its command. */
  ghost predicate Answered(d: Dir, ends: seq<nat>, reports: seq<nat>)
    requires |reports| <= |ends|
  {
    && (forall t :: t in d.tags && Got(d, t) ==> AckWithin(d, t, |d.acks|))
    && (forall k :: 0 <= k < |reports| ==> reports[k] <= |d.acks|)
    && (forall k, t :: 0 <= k < |reports| && t in d.tags && t < ends[k] ==> AckWithin(d, t, reports[k]))
  }

  ghost predicate Keeps(c: Client, l: Limits) {
    && Inv(c.d) && InStep(c, l)
    && (forall t :: t in c.d.tags ==> t >= Floor(c, l))
    && Answered(c.d, c.ends, c.reports)
  }

  lemma CommandKeeps(c: Client, l: Limits)
    requires ValidClient(c) && Keeps(c, l) && CanMove(c, Command, l, false)
    requires l.capacity * l.packets <= WINDOW
    ensures Keeps(Moved(c, Command, l, false), l)
  {
    hide Inv, SentMany, Answered, InStep;
    RoomForOneMore(c, l);
    SentManyKeeps(c.d, l.packets);
    SentManyFacts(c.d, l.packets);
    SentManyTags(c.d, l.packets);
    CommandStaysInStep(c, l);
    CommandAnswers(c, l);
    FloorStays(c, l);
  }

  lemma RoomForOneMore(c: Client, l: Limits)
    requires ValidClient(c) && Keeps(c, l) && |c.ends| < l.capacity && l.capacity * l.packets <= WINDOW
    ensures Span(c.d) + l.packets <= WINDOW
  {
    hide Inv, Answered, InStep;
    FirstIsIn(c.d.tags);
    Product(0, |c.ends|, l.packets);
    Product(|c.ends| + 1, l.capacity, l.packets);
  }

  lemma FloorStays(c: Client, l: Limits)
    requires ValidClient(c) && CanMove(c, Command, l, false)
    ensures Floor(Moved(c, Command, l, false), l) == Floor(c, l) <= |c.d.sent|
  {
    hide SentMany;
    SentManyFacts(c.d, l.packets);
    Product(0, |c.ends|, l.packets);
    Product(|c.ends| + 1, |c.ends| + 1, l.packets);
  }

  lemma CommandStaysInStep(c: Client, l: Limits)
    requires ValidClient(c) && InStep(c, l) && CanMove(c, Command, l, false)
    ensures InStep(Moved(c, Command, l, false), l)
  {
    hide SentMany;
    var c' := Moved(c, Command, l, false);
    SentManyFacts(c.d, l.packets);
    forall k | 0 <= k < |c'.ends| ensures c'.ends[k] == |c'.d.sent| - (|c'.ends| - 1 - k) * l.packets {
      if k < |c.ends| {
        Product(|c'.ends| - 1 - k, |c'.ends| - 1 - k, l.packets);
      }
    }
  }

  lemma CommandAnswers(c: Client, l: Limits)
    requires ValidClient(c) && Keeps(c, l) && CanMove(c, Command, l, false)
    ensures var c' := Moved(c, Command, l, false); |c'.reports| <= |c'.ends| && Answered(c'.d, c'.ends, c'.reports)
  {
    EndsAreBelow(c, l);
    NewIsNotGot(c.d, l.packets);
    SentManyFacts(c.d, l.packets);
    SentManyTags(c.d, l.packets);
    hide Inv, SentMany, Got;
    var c' := Moved(c, Command, l, false);
    forall t, n: nat | AckWithin(c.d, t, n) ensures AckWithin(c'.d, t, n) {
      LaterAck(c.d, c'.d, t, n);
    }
  }

  lemma Product(a: nat, b: nat, p: nat)
    requires a <= b
    ensures a * p <= b * p && a * p == (a - 1) * p + p
  {}

  lemma EndsAreBelow(c: Client, l: Limits)
    requires InStep(c, l)
    ensures forall k :: 0 <= k < |c.ends| ==> c.ends[k] <= |c.d.sent|
  {
    forall k | 0 <= k < |c.ends| ensures c.ends[k] <= |c.d.sent| {
      Product(0, |c.ends| - 1 - k, l.packets);
    }
  }

  lemma NewIsNotGot(d: Dir, n: nat)
    requires Inv(d) && |d.tags| == |d.tx.unacked|
    ensures forall t: nat :: Got(SentMany(d, n), t) <==> Got(d, t)
    ensures forall t: nat :: t >= |d.sent| ==> !Got(d, t)
  {
    hide SentMany;
    SentManyFacts(d, n);
    HeadIsSent(d);
  }

  lemma HeadIsSent(d: Dir)
    requires Inv(d)
    ensures d.head <= |d.sent| && forall g :: g in d.held ==> g < |d.sent|
  {}

  lemma ReportKeeps(c: Client, l: Limits)
    requires ValidClient(c) && Keeps(c, l) && CanMove(c, Report, l, false)
    ensures Keeps(Moved(c, Report, l, false), l)
  {
    hide Inv, AckWithin;
  }

  lemma ReadKeeps(c: Client, l: Limits)
    requires ValidClient(c) && Keeps(c, l) && CanMove(c, Read, l, false)
    ensures Keeps(Moved(c, Read, l, false), l)
  {
    hide Inv, Got;
    var c' := Moved(c, Read, l, false);
    forall t | t in c.d.tags ensures t >= Floor(c', l) {
      assert !AckWithin(c.d, t, c.reports[0]);
      assert t >= c.ends[0];
    }
    forall k | 0 <= k < |c'.ends| ensures c'.ends[k] == |c'.d.sent| - (|c'.ends| - 1 - k) * l.packets {
      assert c'.ends[k] == c.ends[k + 1];
    }
  }

  /** What the link's own steps do to acknowledgements that are not lost. */
  lemma LineAnswers(d: Dir, step: Step, ends: seq<nat>, reports: seq<nat>)
    requires Inv(d) && |d.tags| == |d.tx.unacked| && Possible(d, step) && !step.Send? && !step.LoseAck?
    requires |reports| <= |ends| && Answered(d, ends, reports)
    ensures Answered(Apply(d, step), ends, if step.DeliverAck? then Passed(reports, 0) else reports)
  {
    var d' := Apply(d, step);
    if step.DeliverAck? {
      AckAnswers(d, ends, reports);
    } else if step.DeliverData? {
      DeliveryAnswers(d, ends, reports);
    } else {
      hide Inv;
      SameAnswers(d, d', ends, reports);
    }
  }

  lemma SameAnswers(d: Dir, d': Dir, ends: seq<nat>, reports: seq<nat>)
    requires |reports| <= |ends| && Answered(d, ends, reports)
    requires d'.tags == d.tags && d'.acks == d.acks && d'.head == d.head && d'.held == d.held
    ensures Answered(d', ends, reports)
  {
    forall t, n: nat | AckWithin(d, t, n) ensures AckWithin(d', t, n) {
      LaterAck(d, d', t, n);
    }
  }

  lemma LaterAck(d: Dir, d': Dir, t: nat, n: nat)
    requires AckWithin(d, t, n) && d.acks <= d'.acks
    ensures AckWithin(d', t, n)
  {
    var j :| 0 <= j < n && j < |d.acks| && d.acks[j].abs == t;
    assert d'.acks[j] == d.acks[j];
  }

  lemma DeliveryAnswers(d: Dir, ends: seq<nat>, reports: seq<nat>)
    requires Inv(d) && d.flight != []
    requires |reports| <= |ends| && Answered(d, ends, reports)
    ensures Answered(Received(d), ends, reports)
  {
    DeliverRx(d);
    DeliveryKeeps(d);
    hide Inv, Received, RxRel, Got, AckWithin;
    var d' := Received(d);
    forall t: nat, n: nat | AckWithin(d, t, n) ensures AckWithin(d', t, n) {
      LaterAck(d, d', t, n);
    }
    LastAck(d', d.flight[0].abs);
    forall t | t in d'.tags && Got(d', t) ensures AckWithin(d', t, |d'.acks|) {
      if t != d.flight[0].abs {
        MoreAcks(d', t, |d.acks|, |d'.acks|);
      }
    }
  }

  lemma LastAck(d: Dir, t: nat)
    requires d.acks != [] && d.acks[|d.acks| - 1].abs == t
    ensures AckWithin(d, t, |d.acks|)
  {}

  lemma MoreAcks(d: Dir, t: nat, n: nat, m: nat)
    requires AckWithin(d, t, n) && n <= m
    ensures AckWithin(d, t, m)
  {}

  lemma AckAnswers(d: Dir, ends: seq<nat>, reports: seq<nat>)
    requires Inv(d) && |d.tags| == |d.tx.unacked| && d.acks != []
    requires |reports| <= |ends| && Answered(d, ends, reports)
    ensures Answered(Apply(d, DeliverAck), ends, Passed(reports, 0))
  {
    var d' := Apply(d, DeliverAck);
    AckTx(d, d');
    AckApplied(d);
    AckKeepsGot(d);
    hide Inv, Apply, Got, AckWithin;
    forall t, n: nat | t in d'.tags && AckWithin(d, t, n) ensures n > 0 && AckWithin(d', t, n - 1) {
      NextAck(d, d', t, n);
    }
    assert forall k :: 0 <= k < |reports| ==> Passed(reports, 0)[k] == if reports[k] > 0 then reports[k] - 1 else 0;
  }

  lemma NextAck(d: Dir, d': Dir, t: nat, n: nat)
    requires d.acks != [] && d'.acks == d.acks[1..] && t != d.acks[0].abs && AckWithin(d, t, n)
    ensures n > 0 && AckWithin(d', t, n - 1)
  {
    var j :| 0 <= j < n && j < |d.acks| && d.acks[j].abs == t;
    assert d'.acks[j - 1] == d.acks[j];
  }

  lemma LineKeeps(c: Client, step: Step, l: Limits)
    requires ValidClient(c) && Keeps(c, l) && CanMove(c, Line(step), l, false)
    ensures Keeps(Moved(c, Line(step), l, false), l)
  {
    hide Inv, Apply, Answered;
    SpanShrinks(c.d, step);
    LineAnswers(c.d, step, c.ends, c.reports);
  }

  lemma MoveKeeps(c: Client, move: Move, l: Limits)
    requires ValidClient(c) && Keeps(c, l) && CanMove(c, move, l, false)
    requires l.capacity * l.packets <= WINDOW && l.cancel == 0
    ensures Keeps(Moved(c, move, l, false), l)
  {
    hide Keeps, Moved;
    match move
    case Command => CommandKeeps(c, l);
    case Report => ReportKeeps(c, l);
    case Read => ReadKeeps(c, l);
    case Line(step) => LineKeeps(c, step, l);
  }

  lemma {:induction false} RunKeeps(c: Client, run: seq<Move>, l: Limits)
    requires ValidClient(c) && Keeps(c, l) && LegalRun(c, run, l, false)
    requires l.capacity * l.packets <= WINDOW && l.cancel == 0
    ensures Keeps(AfterRun(c, run, l, false), l)
    decreases |run|
  {
    hide Keeps, CanMove, Moved;
    if run != [] {
      MoveKeeps(c, run[0], l);
      RunKeeps(Moved(c, run[0], l, false), run[1..], l);
    }
  }

  // ---- What is safe ----

  /** Every command waits for all before it; or the device's queue bounds the
      span, which it does only without cancels and lost acknowledgements. */
  predicate Sound(l: Limits, ackLoss: bool) {
    || (l.maxUnacked == 1 && l.packets + l.cancel <= WINDOW)
    || (!ackLoss && l.cancel == 0 && l.capacity * l.packets <= WINDOW)
  }

  lemma SoundIsSafe(l: Limits, ackLoss: bool)
    requires Sound(l, ackLoss)
    ensures GateIsSafe(l, ackLoss)
  {
    hide Inv, Safe;
    forall m: nat, run | LegalRun(Begin(m), run, l, ackLoss) ensures Safe(AfterRun(Begin(m), run, l, ackLoss).d) {
      InitInv(m);
      if l.maxUnacked == 1 && l.packets + l.cancel <= WINDOW {
        RunWaits(Begin(m), run, l, ackLoss);
      } else {
        RunKeeps(Begin(m), run, l);
      }
      InvIsSafe(AfterRun(Begin(m), run, l, ackLoss).d);
    }
  }

  // ---- Runs ----

  lemma PrependMove(c: Client, move: Move, run: seq<Move>, l: Limits, ackLoss: bool)
    requires ValidClient(c) && CanMove(c, move, l, ackLoss)
    requires LegalRun(Moved(c, move, l, ackLoss), run, l, ackLoss)
    ensures LegalRun(c, [move] + run, l, ackLoss)
    ensures AfterRun(c, [move] + run, l, ackLoss) == AfterRun(Moved(c, move, l, ackLoss), run, l, ackLoss)
  {
    hide CanMove, Moved;
    assert ([move] + run)[1..] == run;
  }

  lemma {:induction false} AppendRun(c: Client, x: seq<Move>, y: seq<Move>, l: Limits, ackLoss: bool)
    requires ValidClient(c) && LegalRun(c, x, l, ackLoss) && LegalRun(AfterRun(c, x, l, ackLoss), y, l, ackLoss)
    ensures LegalRun(c, x + y, l, ackLoss)
    ensures AfterRun(c, x + y, l, ackLoss) == AfterRun(AfterRun(c, x, l, ackLoss), y, l, ackLoss)
    decreases |x|
  {
    hide CanMove, Moved;
    if x == [] {
      ConcatEmpty(y);
    } else {
      TailOfConcat(x, y);
      AppendRun(Moved(c, x[0], l, ackLoss), x[1..], y, l, ackLoss);
    }
  }

  /** One more move at the end of a run. */
  lemma Extend(c: Client, x: seq<Move>, move: Move, l: Limits, ackLoss: bool) returns (run: seq<Move>)
    requires ValidClient(c) && LegalRun(c, x, l, ackLoss) && CanMove(AfterRun(c, x, l, ackLoss), move, l, ackLoss)
    ensures LegalRun(c, run, l, ackLoss)
    ensures AfterRun(c, run, l, ackLoss) == Moved(AfterRun(c, x, l, ackLoss), move, l, ackLoss)
  {
    hide CanMove, Moved;
    var last := AfterRun(c, x, l, ackLoss);
    assert [move][1..] == [];
    assert LegalRun(Moved(last, move, l, ackLoss), [], l, ackLoss);
    AppendRun(c, x, [move], l, ackLoss);
    run := x + [move];
  }

  /** The link's reads are moves of the client. */
  lemma {:induction false} ReadsAreMoves(c: Client, steps: seq<Step>, gate: Gate, l: Limits, ackLoss: bool)
      returns (run: seq<Move>)
    requires ValidClient(c) && c.reports == [] && AllRead(steps) && Legal(c.d, steps, gate)
    ensures LegalRun(c, run, l, ackLoss)
    ensures AfterRun(c, run, l, ackLoss) == c.(d := After(c.d, steps, gate))
    decreases |steps|
  {
    hide Apply;
    if steps == [] {
      run := [];
    } else {
      var move := Line(steps[0]);
      assert Reads(steps[0]) && Moved(c, move, l, ackLoss).reports == [];
      var rest := ReadsAreMoves(Moved(c, move, l, ackLoss), steps[1..], gate, l, ackLoss);
      PrependMove(c, move, rest, l, ackLoss);
      run := [move] + rest;
    }
  }

  // ---- A packet stays lost ----

  /** The first packet is lost, all others that were sent are retired. */
  ghost predicate Stuck(c: Client, n: nat, l: Limits) {
    && ValidClient(c) && Inv(c.d)
    && c.d.flight == [] && c.d.acks == [] && c.d.head == 0 && |c.d.sent| == n <= WINDOW
    && c.d.tags == (if n == 0 then [] else [0])
    && c.reports == [] && (if l.cancel > 0 then c.ends == [] else |c.ends| * l.packets == n)
  }

  lemma StuckFacts(c: Client, n: nat, l: Limits)
    requires Stuck(c, n, l)
    ensures Span(c.d) == n && |c.d.tx.unacked| == (if n == 0 then 0 else 1)
    ensures c.d.tx.nextSeq == n % 256 && c.d.rx.recvHead == 0
    ensures n > 0 ==> !Got(c.d, 0)
  {}

  lemma {:induction false} SentOn(d: Dir, n: nat, k: nat)
    requires |d.tags| == |d.tx.unacked|
    ensures SentMany(SentMany(d, n), k) == SentMany(d, n + k)
    decreases k
  {
    hide Apply;
    if k > 0 {
      SentOn(d, n, k - 1);
    }
  }

  /** A command, and a cancel where there are any. */
  lemma SendRound(c: Client, n: nat, l: Limits, ackLoss: bool) returns (run: seq<Move>)
    requires Stuck(c, n, l) && |c.ends| < l.capacity && |c.d.tx.unacked| < l.maxUnacked
    ensures LegalRun(c, run, l, ackLoss)
    ensures var v := AfterRun(c, run, l, ackLoss);
      && v.d == SentMany(c.d, l.packets + l.cancel) && v.reports == []
      && v.ends == if l.cancel > 0 then [] else c.ends + [n + l.packets]
  {
    hide Inv, SentMany, LegalRun, AfterRun;
    Nothing(c, l, ackLoss);
    run := Extend(c, [], Command, l, ackLoss);
    var w := AfterRun(c, run, l, ackLoss);
    assert w.ends == c.ends + [n + l.packets];
    if l.cancel > 0 {
      run := Extend(c, run, Cancel, l, ackLoss);
      SentOn(c.d, l.packets, l.cancel);
    }
  }

  lemma Nothing(c: Client, l: Limits, ackLoss: bool)
    requires ValidClient(c)
    ensures LegalRun(c, [], l, ackLoss) && AfterRun(c, [], l, ackLoss) == c
  {}

  lemma {:induction false} LoseFirst(c: Client, n: nat, l: Limits, ackLoss: bool) returns (run: seq<Move>)
    requires ValidClient(c) && n <= |c.d.flight|
    ensures LegalRun(c, run, l, ackLoss)
    ensures AfterRun(c, run, l, ackLoss) == c.(d := c.d.(flight := c.d.flight[n..]))
    decreases n
  {
    hide LegalRun, AfterRun;
    if n == 0 {
      Nothing(c, l, ackLoss);
      run := [];
    } else {
      var before := LoseFirst(c, n - 1, l, ackLoss);
      var v := AfterRun(c, before, l, ackLoss);
      assert v.d.flight == c.d.flight[n - 1..];
      assert Without(v.d.flight, 0) == c.d.flight[n..];
      run := Extend(c, before, Line(LoseData(0)), l, ackLoss);
    }
  }

  /** A packet half the sequence space ahead of the head looks old. */
  lemma TooFarIsConfused(d: Dir)
    requires d.flight != [] && d.flight[0].abs == WINDOW && d.flight[0].packet.seq_ == WINDOW
    requires d.head == 0 && d.rx.recvHead == 0
    ensures !Safe(d)
  {
    assert !InWindow(d.rx, d.flight[0].packet.seq_);
  }

  /** What leaves the client room to send on with one packet stuck. */
  predicate Presses(n: nat, l: Limits) {
    && l.capacity >= 1 && l.maxUnacked >= 1 && l.packets >= 1
    && (l.packets + l.cancel > WINDOW || l.maxUnacked >= 2)
    && (n > 0 ==> l.maxUnacked >= 2)
    && (l.cancel > 0 || l.capacity * l.packets > WINDOW)
  }

  lemma MayGoOn(c: Client, n: nat, l: Limits)
    requires Stuck(c, n, l) && Presses(n, l)
    ensures |c.ends| < l.capacity && |c.d.tx.unacked| < l.maxUnacked
  {
    StuckFacts(c, n, l);
    hide Inv;
    if l.cancel == 0 && |c.ends| >= l.capacity {
      Product(l.capacity, |c.ends|, l.packets);
    }
  }

  lemma {:induction false} StuckIsUnsafe(c: Client, n: nat, l: Limits, ackLoss: bool) returns (run: seq<Move>)
    requires Stuck(c, n, l) && Presses(n, l)
    ensures LegalRun(c, run, l, ackLoss) && !Safe(AfterRun(c, run, l, ackLoss).d)
    decreases WINDOW - n
  {
    hide Stuck, Inv, LegalRun, AfterRun, Safe, SentMany;
    var more := l.packets + l.cancel;
    StuckIsValid(c, n, l);
    MayGoOn(c, n, l);
    run := SendRound(c, n, l, ackLoss);
    var c1 := AfterRun(c, run, l, ackLoss);
    if n + more > WINDOW {
      var lose := Overshot(c, n, l, c1, ackLoss);
      AppendRun(c, run, lose, l, ackLoss);
      run := run + lose;
    } else {
      var read := StillStuck(c, n, l, c1, ackLoss);
      AppendRun(c, run, read, l, ackLoss);
      run := run + read;
      var rest := StuckIsUnsafe(AfterRun(c, run, l, ackLoss), n + more, l, ackLoss);
      AppendRun(c, run, rest, l, ackLoss);
      run := run + rest;
    }
  }

  lemma StuckIsValid(c: Client, n: nat, l: Limits)
    requires Stuck(c, n, l)
    ensures ValidClient(c) && n <= WINDOW
  {}

  lemma Overshot(c: Client, n: nat, l: Limits, c1: Client, ackLoss: bool) returns (run: seq<Move>)
    requires Stuck(c, n, l) && n + l.packets + l.cancel > WINDOW
    requires c1.d == SentMany(c.d, l.packets + l.cancel)
    ensures ValidClient(c1) && LegalRun(c1, run, l, ackLoss) && !Safe(AfterRun(c1, run, l, ackLoss).d)
  {
    hide LegalRun, AfterRun, Safe, SentMany, Inv;
    SentManyFacts(c.d, l.packets + l.cancel);
    StuckFacts(c, n, l);
    run := LoseFirst(c1, WINDOW - n, l, ackLoss);
    var v := AfterRun(c1, run, l, ackLoss);
    assert v.d.flight[0] == c1.d.flight[WINDOW - n];
    TooFarIsConfused(v.d);
  }

  lemma StillStuck(c: Client, n: nat, l: Limits, c1: Client, ackLoss: bool) returns (run: seq<Move>)
    requires Stuck(c, n, l) && n + l.packets + l.cancel <= WINDOW && l.packets >= 1
    requires c1.d == SentMany(c.d, l.packets + l.cancel) && c1.reports == []
    requires c1.ends == if l.cancel > 0 then [] else c.ends + [n + l.packets]
    ensures ValidClient(c1) && LegalRun(c1, run, l, ackLoss)
    ensures Stuck(AfterRun(c1, run, l, ackLoss), n + l.packets + l.cancel, l)
  {
    hide LegalRun, AfterRun, SentMany, Inv, Got, ReadAway, Covered, InFlight;
    var k := l.packets + l.cancel;
    StuckFacts(c, n, l);
    SentManyKeeps(c.d, k);
    var c2, lose := FirstIsLost(c, n, l, c1, ackLoss);
    var steps := ReadUp(c2.d, BySpan(0));
    var v := After(c2.d, steps, BySpan(0));
    OnlyFirstIsLeft(c2.d, v, n + k);
    var read := ReadsAreMoves(c2, steps, BySpan(0), l, ackLoss);
    AppendRun(c1, lose, read, l, ackLoss);
    run := lose + read;
    if l.cancel == 0 {
      Product(|c.ends| + 1, |c.ends| + 1, l.packets);
      assert |c1.ends| == |c.ends| + 1;
    }
  }

  /** All numbers of `d` were sent, and each but the first is in flight or
      retired; the first is neither in flight nor got. */
  ghost predicate FirstIsGone(d: Dir, n: nat) {
    && |d.sent| == n && n > 0 && 0 in d.tags && !Got(d, 0) && !InFlight(d, 0)
    && d.acks == [] && forall t :: t in d.tags && t > 0 ==> InFlight(d, t)
  }

  lemma FirstIsLost(c: Client, n: nat, l: Limits, c1: Client, ackLoss: bool) returns (c2: Client, run: seq<Move>)
    requires Stuck(c, n, l) && n + l.packets + l.cancel <= WINDOW && l.packets >= 1
    requires c1.d == SentMany(c.d, l.packets + l.cancel) && Inv(c1.d)
    ensures ValidClient(c1) && LegalRun(c1, run, l, ackLoss) && c2 == AfterRun(c1, run, l, ackLoss)
    ensures Inv(c2.d) && FirstIsGone(c2.d, n + l.packets + l.cancel) && ValidClient(c2)
    ensures c2.ends == c1.ends && c2.reports == c1.reports
  {
    hide LegalRun, AfterRun, SentMany, Inv;
    var k := l.packets + l.cancel;
    SentManyFacts(c.d, k);
    SentManyTags(c.d, k);
    StuckFacts(c, n, l);
    Nothing(c1, l, ackLoss);
    if n == 0 {
      run := LoseFirst(c1, 1, l, ackLoss);
      LoseDataKeepsInv(c1.d, 0);
      assert Without(c1.d.flight, 0) == c1.d.flight[1..];
    } else {
      run := [];
    }
    c2 := AfterRun(c1, run, l, ackLoss);
    var skipped := if n == 0 then 1 else 0;
    assert c2.d.flight == c1.d.flight[skipped..];
    forall t | t in c2.d.tags && t > 0 ensures InFlight(c2.d, t) {
      assert c2.d.flight[t - n - skipped].abs == t;
    }
    assert forall j :: 0 <= j < |c2.d.flight| ==> c2.d.flight[j].abs == n + skipped + j;
    BeginsUngot(c, n, l);
  }

  lemma BeginsUngot(c: Client, n: nat, l: Limits)
    requires Stuck(c, n, l)
    ensures !Got(c.d, 0)
  {}

  lemma OnlyFirstIsLeft(d: Dir, v: Dir, n: nat)
    requires FirstIsGone(d, n) && ReadAway(d, v) && Inv(v)
    ensures v.tags == [0] && v.head == 0 && v.flight == [] && v.acks == [] && v.sent == d.sent
  {
    IncreasingTags(v);
    hide Inv, InFlight;
    forall t ensures t in v.tags <==> t == 0 {
      if t in d.tags && t > 0 {
        FlightCovers(d, t);
      }
      if t == 0 {
        NotCovered(d, t);
      }
    }
    OnlyZeroLeft(v.tags);
    assert !Got(v, 0);
  }

  lemma FlightCovers(d: Dir, t: nat)
    requires InFlight(d, t)
    ensures Covered(d, t)
  {}

  lemma NotCovered(d: Dir, t: nat)
    requires !InFlight(d, t) && d.acks == []
    ensures !Covered(d, t)
  {}

  lemma BeginIsStuck(m: nat, l: Limits)
    requires l.packets >= 1
    ensures Stuck(Begin(m), 0, l)
  {
    InitInv(m);
  }

  // ---- An acknowledgement stays lost ----

  /** The link as it would be had the oldest packet been retired. */
  function Retired(d: Dir): (d': Dir)
    requires d.tags != [] && |d.tags| == |d.tx.unacked|
    ensures |d'.tags| == |d'.tx.unacked|
  {
    d.(tx := d.tx.(unacked := d.tx.unacked[1..]), tags := d.tags[1..])
  }

  predicate KeepsFirst(d: Dir, d': Dir)
    requires d.tags != [] && |d.tags| == |d.tx.unacked| && |d'.tags| == |d'.tx.unacked|
  {
    d'.tags != [] && d'.tags[0] == d.tags[0] && d'.tx.unacked[0] == d.tx.unacked[0]
  }

  lemma {:induction false} SendsAside(d: Dir, n: nat)
    requires d.tags != [] && |d.tags| == |d.tx.unacked|
    ensures KeepsFirst(d, SentMany(d, n)) && Retired(SentMany(d, n)) == SentMany(Retired(d), n)
    decreases n
  {
    if n > 0 {
      SendsAside(d, n - 1);
      OneAside(SentMany(d, n - 1));
    }
  }

  lemma OneAside(d: Dir)
    requires d.tags != [] && |d.tags| == |d.tx.unacked|
    ensures KeepsFirst(d, Apply(d, PIECE)) && Retired(Apply(d, PIECE)) == Apply(Retired(d), PIECE)
  {
    var x := Pending(NextPacket(d.tx, ASK_STREAM_DATA, PAYLOAD), 0, d.tx.tick);
    TailOfConcat(d.tx.unacked, [x]);
    TailOfConcat(d.tags, [|d.sent|]);
  }

  lemma ReadsAside(d: Dir, step: Step)
    requires d.tags != [] && |d.tags| == |d.tx.unacked| && Reads(step) && Possible(d, step)
    requires step.DeliverAck? ==> d.acks[0].seq_ != d.tx.unacked[0].packet.seq_
    ensures Possible(Retired(d), step)
    ensures KeepsFirst(d, Apply(d, step)) && Retired(Apply(d, step)) == Apply(Retired(d), step)
  {
    hide StreamAccepted, ControlAccepted, ReleasedTo, Acks, InWindow;
    if step.DeliverAck? {
      var s, unacked, tags := d.acks[0].seq_, d.tx.unacked, d.tags;
      SplitAt(RetainedTags(unacked, tags, s), 1);
      assert RetainedTags(unacked, tags, s)[1..] == RetainedTags(unacked[1..], tags[1..], s);
      assert Retained(unacked, s)[1..] == Retained(unacked[1..], s);
    }
  }

  /** Nothing under way has the number, or the sequence number, of the first. */
  predicate OthersOnly(d: Dir) {
    && (forall j :: 0 <= j < |d.flight| ==> 0 < d.flight[j].abs < 256)
    && (forall j :: 0 <= j < |d.acks| ==> 0 < d.acks[j].abs < 256)
  }

  lemma OthersAreRead(d: Dir, step: Step)
    requires Inv(d) && |d.tags| == |d.tx.unacked| && OthersOnly(d) && Reads(step) && Possible(d, step)
    ensures Inv(Apply(d, step)) && OthersOnly(Apply(d, step))
    ensures step.DeliverAck? ==> d.acks[0].seq_ != 0
  {
    hide Inv, Apply, OthersOnly;
    StepKeepsInv(d, step);
    if step.DeliverData? {
      OthersDelivered(d);
    } else {
      OthersAcked(d);
    }
  }

  lemma OthersDelivered(d: Dir)
    requires Inv(d) && |d.tags| == |d.tx.unacked| && OthersOnly(d) && d.flight != []
    ensures OthersOnly(Apply(d, DeliverData))
  {
    hide Inv, Received, RxRel, Got;
    DeliverRx(d);
    DeliveryKeeps(d);
    assert forall j :: 0 <= j < |Received(d).flight| ==> Received(d).flight[j] == d.flight[j + 1];
  }

  lemma OthersAcked(d: Dir)
    requires Inv(d) && |d.tags| == |d.tx.unacked| && OthersOnly(d) && d.acks != []
    ensures OthersOnly(Apply(d, DeliverAck)) && d.acks[0].seq_ != 0
  {
    hide TxRel, RxRel, FlightRel, Retained, RetainedTags;
    assert AckRel(d, d.acks[0]);
    assert forall j :: 0 <= j < |d.acks[1..]| ==> d.acks[1..][j] == d.acks[j + 1];
  }

  lemma {:induction false} RunsAside(d: Dir, steps: seq<Step>, gate: Gate)
    requires d.tags != [] && |d.tags| == |d.tx.unacked| && d.tx.unacked[0].packet.seq_ == 0
    requires Inv(Retired(d)) && OthersOnly(d)
    requires AllRead(steps) && Legal(Retired(d), steps, gate)
    ensures Legal(d, steps, gate) && KeepsFirst(d, After(d, steps, gate))
    ensures Retired(After(d, steps, gate)) == After(Retired(d), steps, gate)
    decreases |steps|
  {
    hide Inv, Apply, Retired;
    SameOthers(d);
    if steps != [] {
      assert Reads(steps[0]);
      OthersAreRead(Retired(d), steps[0]);
      ReadsAside(d, steps[0]);
      SameOthers(Apply(d, steps[0]));
      RunsAside(Apply(d, steps[0]), steps[1..], gate);
    }
  }

  lemma SameOthers(d: Dir)
    requires d.tags != [] && |d.tags| == |d.tx.unacked|
    ensures Retired(d).flight == d.flight && Retired(d).acks == d.acks
    ensures OthersOnly(Retired(d)) <==> OthersOnly(d)
    ensures forall step :: Reads(step) ==> (Possible(Retired(d), step) <==> Possible(d, step))
  {}

  /** All was read and every command finished, but the acknowledgement of the
      first packet is lost. */
  ghost predicate Unanswered(c: Client, n: nat) {
    && ValidClient(c) && c.ends == [] && c.reports == []
    && c.d.tags == [0] && c.d.tx.unacked[0].packet.seq_ == 0
    && c.d.flight == [] && c.d.acks == [] && c.d.head == n == |c.d.sent| && n > 0
    && Inv(Retired(c.d))
  }

  /** The device finishes the one command in flight, and the client hears it. */
  lemma FinishOne(c: Client, n: nat, l: Limits, ackLoss: bool) returns (run: seq<Move>)
    requires ValidClient(c) && c.ends == [n] && c.reports == [] && n <= c.d.head && c.d.acks == []
    ensures LegalRun(c, run, l, ackLoss)
    ensures AfterRun(c, run, l, ackLoss) == c.(ends := [])
  {
    hide LegalRun, AfterRun;
    Nothing(c, l, ackLoss);
    run := Extend(c, [], Report, l, ackLoss);
    var w := AfterRun(c, run, l, ackLoss);
    assert w == c.(reports := [0]);
    run := Extend(c, run, Read, l, ackLoss);
    assert c.ends[1..] == [] && w.reports[1..] == [];
  }

  lemma OneMoreUnanswered(c: Client, n: nat, l: Limits, ackLoss: bool) returns (run: seq<Move>)
    requires Unanswered(c, n) && n <= WINDOW && 1 <= l.packets <= WINDOW && l.capacity >= 1 && l.maxUnacked >= 2
    ensures LegalRun(c, run, l, ackLoss) && Unanswered(AfterRun(c, run, l, ackLoss), n + l.packets)
  {
    hide LegalRun, AfterRun, SentMany, Inv, Got, ReadAway, Retired;
    Nothing(c, l, ackLoss);
    run := Extend(c, [], Command, l, ackLoss);
    var c1 := AfterRun(c, run, l, ackLoss);
    assert c1 == Client(SentMany(c.d, l.packets), [n + l.packets], []);
    var steps, v := ReadAside(c, n, l);
    var read := ReadsAreMoves(c1, steps, BySpan(0), l, ackLoss);
    AppendRun(c, run, read, l, ackLoss);
    run := run + read;
    var c2 := AfterRun(c, run, l, ackLoss);
    var finish := FinishOne(c2, n + l.packets, l, ackLoss);
    AppendRun(c, run, finish, l, ackLoss);
    run := run + finish;
  }

  lemma ReadAside(c: Client, n: nat, l: Limits) returns (steps: seq<Step>, v: Dir)
    requires Unanswered(c, n) && n <= WINDOW && 1 <= l.packets <= WINDOW
    ensures AllRead(steps) && Legal(SentMany(c.d, l.packets), steps, BySpan(0))
    ensures v == After(SentMany(c.d, l.packets), steps, BySpan(0))
    ensures v.tags == [0] && |v.tx.unacked| == 1 && v.tx.unacked[0].packet.seq_ == 0
    ensures v.flight == [] && v.acks == [] && v.head == n + l.packets == |v.sent| && Inv(Retired(v))
  {
    hide SentMany, Inv, Got, ReadAway, Legal, After;
    var d1 := SentMany(c.d, l.packets);
    SendsAside(c.d, l.packets);
    SentManyKeeps(Retired(c.d), l.packets);
    SentManyFacts(Retired(c.d), l.packets);
    SentManyTags(Retired(c.d), l.packets);
    steps := ReadUp(Retired(d1), BySpan(0));
    RunsAside(d1, steps, BySpan(0));
    v := After(d1, steps, BySpan(0));
    AllInFlightIsRead(Retired(d1), Retired(v), n);
    assert v.tags == [v.tags[0]] + v.tags[1..];
  }

  lemma AllInFlightIsRead(d: Dir, v: Dir, n: nat)
    requires ReadAway(d, v) && Inv(v) && |d.sent| - n == |d.flight|
    requires forall t :: t in d.tags ==> n <= t < |d.sent|
    requires forall j :: 0 <= j < |d.flight| ==> d.flight[j].abs == n + j
    ensures v.tags == [] && v.flight == [] && v.acks == [] && v.head == |v.sent| == |d.sent|
  {
    forall t | t in d.tags ensures Covered(d, t) {
      assert d.flight[t - n].abs == t;
    }
    FirstIsIn(v.tags);
    HeadFacts(v);
  }

  /** The first packets are read, and the acknowledgement of the first is lost. */
  lemma FirstUnanswered(m: nat, l: Limits) returns (run: seq<Move>)
    requires 1 <= l.packets <= WINDOW && l.capacity >= 1 && l.maxUnacked >= 1
    ensures LegalRun(Begin(m), run, l, true) && Unanswered(AfterRun(Begin(m), run, l, true), l.packets)
  {
    hide LegalRun, AfterRun, SentMany, Inv, Got, ReadAway, Received;
    var c := Begin(m);
    InitInv(m);
    Nothing(c, l, true);
    run := Extend(c, [], Command, l, true);
    var c1 := AfterRun(c, run, l, true);
    var d1, d2 := FirstAckIsLost(m, l);
    assert c1 == Client(d1, [l.packets], []);
    run := Extend(c, run, Line(DeliverData), l, true);
    run := Extend(c, run, Line(LoseAck(0)), l, true);
    var c2 := AfterRun(c, run, l, true);
    assert c2 == Client(d2, [l.packets], []);
    var steps := ReadUp(d2, BySpan(0));
    var v := After(d2, steps, BySpan(0));
    var read := ReadsAreMoves(c2, steps, BySpan(0), l, true);
    AppendRun(c, run, read, l, true);
    run := run + read;
    OnlyFirstUnanswered(d2, v, l.packets);
    var finish := FinishOne(AfterRun(c, run, l, true), l.packets, l, true);
    AppendRun(c, run, finish, l, true);
    run := run + finish;
  }

  /** All numbers of `d` were sent, and each but the first is in flight; the
      first is got, and nothing under way tells. */
  ghost predicate FirstIsSilent(d: Dir, n: nat) {
    && |d.sent| == n > 0 && 0 in d.tags && Got(d, 0) && !InFlight(d, 0) && d.acks == []
    && forall t :: 0 < t < n ==> InFlight(d, t)
  }

  lemma FirstAckIsLost(m: nat, l: Limits) returns (d1: Dir, d2: Dir)
    requires 1 <= l.packets <= WINDOW
    ensures d1 == SentMany(Init(m), l.packets) && d1.flight != [] && |Received(d1).acks| == 1
    ensures d2 == Apply(Apply(d1, DeliverData), LoseAck(0)) && |d2.tags| == |d2.tx.unacked|
    ensures Inv(d2) && FirstIsSilent(d2, l.packets)
  {
    hide SentMany, Inv, Received, FirstIsSilent;
    var d := Init(m);
    InitInv(m);
    SentManyKeeps(d, l.packets);
    SentManyFacts(d, l.packets);
    SentManyTags(d, l.packets);
    d1 := SentMany(d, l.packets);
    DeliverKeepsInv(d1);
    var e := Apply(d1, DeliverData);
    FirstDelivered(d1, e, l.packets);
    LoseAckKeepsInv(e, 0);
    d2 := Apply(e, LoseAck(0));
    FirstSilent(d1, e, d2, l.packets);
  }

  lemma FirstDelivered(d: Dir, e: Dir, n: nat)
    requires Inv(d) && d.flight != [] && d.acks == [] && d.flight[0].abs == 0 && e == Received(d)
    ensures Got(e, 0) && |e.acks| == 1
    ensures e.flight == d.flight[1..] && e.tags == d.tags && e.sent == d.sent
  {
    hide Inv, Received, RxRel, Got;
    DeliverRx(d);
    DeliveryKeeps(d);
  }

  lemma FirstSilent(d1: Dir, e: Dir, d2: Dir, n: nat)
    requires |d1.sent| == n > 0 && 0 in d1.tags && |d1.flight| == n
    requires forall j :: 0 <= j < n ==> d1.flight[j].abs == j
    requires e.flight == d1.flight[1..] && e.tags == d1.tags && e.sent == d1.sent && Got(e, 0) && |e.acks| == 1
    requires |e.tags| == |e.tx.unacked| && d2 == Apply(e, LoseAck(0))
    ensures FirstIsSilent(d2, n)
  {
    assert d2.acks == [];
    forall t | 0 < t < n ensures InFlight(d2, t) {
      assert d2.flight[t - 1] == d1.flight[t];
    }
    assert forall j :: 0 <= j < |d2.flight| ==> d2.flight[j] == d1.flight[j + 1];
  }

  lemma OnlyFirstUnanswered(d: Dir, v: Dir, n: nat)
    requires FirstIsSilent(d, n) && ReadAway(d, v) && Inv(v) && Inv(d) && |v.tags| == |v.tx.unacked|
    ensures v.tags == [0] && |v.tx.unacked| == 1 && v.tx.unacked[0].packet.seq_ == 0
    ensures v.head == |v.sent| == n && v.flight == [] && v.acks == [] && Inv(Retired(v))
  {
    IncreasingTags(v);
    FirstIsLeast(d);
    forall t ensures t in v.tags <==> t == 0 {
      if t in d.tags && t > 0 {
        FlightCovers(d, t);
      }
      if t == 0 {
        NotCovered(d, t);
      }
    }
    OnlyZeroLeft(v.tags);
    assert Carries(v.tx.unacked[0].packet, v.tags[0], v.sent);
    AllGot(v);
    RetiredKeepsInv(v);
  }

  lemma AllGot(d: Dir)
    requires Inv(d) && forall k: nat :: k < |d.sent| ==> Got(d, k)
    ensures d.head == |d.sent|
  {
    assert !Got(d, d.head);
  }

  lemma RetiredKeepsInv(d: Dir)
    requires Inv(d) && |d.tags| == |d.tx.unacked| && d.tags == [0] && Got(d, 0) && d.acks == [] && d.flight == []
    ensures Inv(Retired(d))
  {
    hide RxRel, Carries;
    var e := Retired(d);
    assert e.tags == [] && e.tx.unacked == [];
    assert forall k :: 0 <= k < |d.sent| && k !in e.tags ==> k !in d.tags || k == 0;
    assert forall k: nat :: Got(e, k) <==> Got(d, k);
  }

  /** Only copies of the first packet are under way. */
  predicate OldOnly(d: Dir) {
    && d.tags == [0] && |d.tx.unacked| == 1 && d.tx.unacked[0].packet.seq_ == 0 && d.acks == []
    && forall j :: 0 <= j < |d.flight| ==> d.flight[j].abs == 0 && d.flight[j].packet.seq_ == 0
  }

  lemma TickStaysOld(d: Dir)
    requires OldOnly(d)
    ensures var d' := Apply(d, Tick);
      OldOnly(d') && d'.rx == d.rx && d'.head == d.head && |d'.tags| == |d'.tx.unacked|
  {
    var d' := Apply(d, Tick);
    var now := NextTick(d.tx.tick);
    assert d.tx.unacked[1..] == [] && d.tags[1..] == [];
    assert ResentData(d.tx.unacked[1..], d.tags[1..], now) == [];
    var more := ResentData(d.tx.unacked, d.tags, now);
    assert |more| <= 1 && forall j :: 0 <= j < |more| ==> more[j].abs == 0 && more[j].packet.seq_ == 0;
    assert ResendAll(d.tx.unacked, now) == [Resend(d.tx.unacked[0], now)] + [];
  }

  /** Sent again when the receiver is half the sequence space on, it is taken for
      a packet to come. */
  lemma OldIsTakenForNew(c: Client, n: nat, l: Limits, ackLoss: bool) returns (run: seq<Move>)
    requires Unanswered(c, n) && WINDOW < n <= 2 * WINDOW
    ensures LegalRun(c, run, l, ackLoss) && !Safe(AfterRun(c, run, l, ackLoss).d)
  {
    hide LegalRun, AfterRun, Inv, Apply, Retired, Safe, AllCovered;
    Nothing(c, l, ackLoss);
    var d1 := Apply(c.d, Tick);
    var d2 := Apply(d1, Tick);
    var d3 := Apply(d2, Tick);
    TickStaysOld(c.d);
    TickStaysOld(d1);
    TickStaysOld(d2);
    run := Extend(c, [], Line(Tick), l, ackLoss);
    run := Extend(c, run, Line(Tick), l, ackLoss);
    run := Extend(c, run, Line(Tick), l, ackLoss);
    ThreeTicks(c.d);
    HeadIsAhead(c, n);
    OldIsConfused(d3, n);
  }

  lemma HeadIsAhead(c: Client, n: nat)
    requires Unanswered(c, n)
    ensures c.d.rx.recvHead == n % 256
  {}

  lemma OldIsConfused(d: Dir, n: nat)
    requires OldOnly(d) && AllCovered(d) && d.head == n && d.rx.recvHead == n % 256
    requires WINDOW < n <= 2 * WINDOW
    ensures !Safe(d)
  {
    assert Covered(d, d.tags[0]);
    assert d.flight != [] && d.flight[0].abs == 0;
    assert InWindow(d.rx, d.flight[0].packet.seq_);
  }

  lemma {:induction false} UnansweredIsUnsafe(c: Client, n: nat, l: Limits, ackLoss: bool) returns (run: seq<Move>)
    requires Unanswered(c, n) && n <= 2 * WINDOW
    requires 1 <= l.packets <= WINDOW && l.capacity >= 1 && l.maxUnacked >= 2
    ensures LegalRun(c, run, l, ackLoss) && !Safe(AfterRun(c, run, l, ackLoss).d)
    decreases 2 * WINDOW - n
  {
    hide LegalRun, AfterRun, Unanswered, Safe;
    UnansweredIsValid(c, n);
    if n > WINDOW {
      run := OldIsTakenForNew(c, n, l, ackLoss);
    } else {
      run := OneMoreUnanswered(c, n, l, ackLoss);
      var rest := UnansweredIsUnsafe(AfterRun(c, run, l, ackLoss), n + l.packets, l, ackLoss);
      AppendRun(c, run, rest, l, ackLoss);
      run := run + rest;
    }
  }

  lemma UnansweredIsValid(c: Client, n: nat)
    requires Unanswered(c, n)
    ensures ValidClient(c)
  {}

  // ---- The theorem ----

  /** Over channels that lose packets the client's gate is safe exactly when it
      allows one unacknowledged packet and a command with its cancel fits the
      window, or when no acknowledgement is ever lost, no cancel is sent and the
      device's queue of commands fits the window. */
  lemma ClientGateIsSafeIff(l: Limits, ackLoss: bool)
    requires l.capacity >= 1 && l.maxUnacked >= 1 && l.packets >= 1
    ensures GateIsSafe(l, ackLoss) <==> Sound(l, ackLoss)
  {
    hide GateIsSafe;
    if Sound(l, ackLoss) {
      SoundIsSafe(l, ackLoss);
    } else {
      var run := UnsoundRun(l, ackLoss);
      NotSafe(run, l, ackLoss);
    }
  }

  lemma NotSafe(run: seq<Move>, l: Limits, ackLoss: bool)
    requires LegalRun(Begin(0), run, l, ackLoss) && !Safe(AfterRun(Begin(0), run, l, ackLoss).d)
    ensures !GateIsSafe(l, ackLoss)
  {}

  /** The run that breaks any other gate: a packet stays lost while cancels, or the
      queue, let commands through; or an acknowledgement does, while commands
      finish. */
  lemma UnsoundRun(l: Limits, ackLoss: bool) returns (run: seq<Move>)
    requires l.capacity >= 1 && l.maxUnacked >= 1 && l.packets >= 1 && !Sound(l, ackLoss)
    ensures LegalRun(Begin(0), run, l, ackLoss) && !Safe(AfterRun(Begin(0), run, l, ackLoss).d)
  {
    hide LegalRun, AfterRun, Safe, Stuck, Unanswered;
    Product(1, l.capacity, l.packets);
    if l.cancel > 0 || l.capacity * l.packets > WINDOW {
      BeginIsStuck(0, l);
      run := StuckIsUnsafe(Begin(0), 0, l, ackLoss);
    } else {
      run := FirstUnanswered(0, l);
      var rest := UnansweredIsUnsafe(AfterRun(Begin(0), run, l, ackLoss), l.packets, l, ackLoss);
      AppendRun(Begin(0), run, rest, l, ackLoss);
      run := run + rest;
    }
  }

  // ---- Without losses ----

  predicate NothingLost(run: seq<Move>) {
    forall move :: move in run ==> !(move.Line? && (move.step.LoseData? || move.step.LoseAck?))
  }

  lemma {:induction false} SentManyFlows(d: Dir, n: nat)
    requires Contiguous(d) && |d.tags| == |d.tx.unacked| && Span(d) + n <= WINDOW
    ensures Contiguous(SentMany(d, n)) && Span(SentMany(d, n)) == Span(d) + n
    decreases n
  {
    hide Contiguous, Apply;
    if n > 0 {
      SentManyFlows(d, n - 1);
      SendStaysContiguous(SentMany(d, n - 1), PIECE);
      OneSent(SentMany(d, n - 1));
    }
  }

  /** A command goes out at most one packet below the limit, and one cancel may
      follow it. */
  ghost predicate Flows(c: Client, l: Limits) {
    && Contiguous(c.d) && Span(c.d) <= l.maxUnacked - 1 + l.packets + l.cancel
    && (c.ends != [] ==> Span(c.d) <= l.maxUnacked - 1 + l.packets)
  }

  lemma MoveFlows(c: Client, move: Move, l: Limits, ackLoss: bool)
    requires ValidClient(c) && Flows(c, l) && CanMove(c, move, l, ackLoss) && NothingLost([move])
    requires l.maxUnacked >= 1 && l.maxUnacked - 1 + l.packets + l.cancel <= WINDOW
    ensures Flows(Moved(c, move, l, ackLoss), l)
  {
    hide InOrderSoFar, Inv, Apply, SentMany;
    CountIsSpan(c.d);
    match move
    case Command => SentManyFlows(c.d, l.packets);
    case Cancel => SentManyFlows(c.d, l.cancel);
    case Report =>
    case Read =>
    case Line(step) =>
      assert move in [move];
      SpanShrinks(c.d, step);
      StepStaysContiguous(c.d, step);
  }

  lemma {:induction false} RunFlows(c: Client, run: seq<Move>, l: Limits, ackLoss: bool)
    requires ValidClient(c) && Flows(c, l) && LegalRun(c, run, l, ackLoss) && NothingLost(run)
    requires l.maxUnacked >= 1 && l.maxUnacked - 1 + l.packets + l.cancel <= WINDOW
    ensures Flows(AfterRun(c, run, l, ackLoss), l)
    decreases |run|
  {
    hide Flows, CanMove, Moved;
    if run != [] {
      assert run[0] in run;
      MoveFlows(c, run[0], l, ackLoss);
      RunFlows(Moved(c, run[0], l, ackLoss), run[1..], l, ackLoss);
    }
  }

  /** Where nothing is lost the limit on packets is a limit on the span: the gate
      is safe when what it can overshoot by still fits the window. */
  lemma ClientGateIsSafeWithoutLoss(m: nat, run: seq<Move>, l: Limits, ackLoss: bool)
    requires l.maxUnacked >= 1 && l.maxUnacked - 1 + l.packets + l.cancel <= WINDOW
    requires LegalRun(Begin(m), run, l, ackLoss) && NothingLost(run)
    ensures var d := AfterRun(Begin(m), run, l, ackLoss).d;
      Safe(d) && |d.tx.unacked| == Span(d) <= l.maxUnacked - 1 + l.packets + l.cancel
  {
    hide Safe, Inv, LegalRun, AfterRun;
    InitInv(m);
    RunFlows(Begin(m), run, l, ackLoss);
    var d := AfterRun(Begin(m), run, l, ackLoss).d;
    CountIsSpan(d);
    InvIsSafe(d);
  }
}
