/** Both directions of a link over one wire each way: a wire carries one side's
    packets and its acknowledgements of the other's, in one order. */
module Duplex {
  import opened Links
  import opened Seqs
  import opened SlidingWindow

  datatype Item = Parcel(data: Data) | Reply(ack: Ack)

  /** The direction from A to B, the one from B to A, and what is on the wires.
      Each direction's own channels are what the wires carry of it. */
  datatype Pair = Pair(ab: Dir, ba: Dir, toB: seq<Item>, toA: seq<Item>)

  /** What happens at A's sender or on the wire it sends on. */
  datatype Act = Local(step: Step) | Arrive | Lose(i: nat)

  datatype Move = FromA(act: Act) | FromB(act: Act)

  function Swap(p: Pair): Pair { Pair(p.ba, p.ab, p.toA, p.toB) }

  function Parcels(wire: seq<Item>): seq<Data> {
    if wire == [] then []
    else Parcels(wire[..|wire| - 1]) + if wire[|wire| - 1].Parcel? then [wire[|wire| - 1].data] else []
  }

  function Replies(wire: seq<Item>): seq<Ack> {
    if wire == [] then []
    else Replies(wire[..|wire| - 1]) + if wire[|wire| - 1].Reply? then [wire[|wire| - 1].ack] else []
  }

  function Sent(packets: seq<Data>): (r: seq<Item>)
    ensures |r| == |packets|
  {
    seq(|packets|, i requires 0 <= i < |packets| => Parcel(packets[i]))
  }

  function Answered(acks: seq<Ack>): (r: seq<Item>)
    ensures |r| == |acks|
  {
    seq(|acks|, i requires 0 <= i < |acks| => Reply(acks[i]))
  }

  predicate Carried(p: Pair) {
    && |p.ab.tags| == |p.ab.tx.unacked| && |p.ba.tags| == |p.ba.tx.unacked|
    && p.ab.flight == Parcels(p.toB) && p.ba.acks == Replies(p.toB)
    && p.ba.flight == Parcels(p.toA) && p.ab.acks == Replies(p.toA)
  }

  predicate CanAct(p: Pair, act: Act) {
    match act
    case Local(step) => (step.Send? || step.Tick? || step.Take?) && Enabled(p.ab, step, WINDOW)
    case Arrive => p.toB != []
    case Lose(i) => i < |p.toB|
  }

  function Acted(p: Pair, act: Act): Pair
    requires Carried(p) && CanAct(p, act)
  {
    match act
    case Local(step) =>
      var ab := Apply(p.ab, step);
      p.(ab := ab, toB := p.toB + if |ab.flight| >= |p.ab.flight| then Sent(ab.flight[|p.ab.flight|..]) else [])
    case Arrive =>
      FirstItem(p.toB);
      if p.toB[0].Parcel? then
        var ab := Apply(p.ab, DeliverData);
        p.(ab := ab, toB := p.toB[1..],
           toA := p.toA + if |ab.acks| >= |p.ab.acks| then Answered(ab.acks[|p.ab.acks|..]) else [])
      else p.(ba := Apply(p.ba, DeliverAck), toB := p.toB[1..])
    case Lose(i) =>
      ItemAt(p.toB, i);
      var rest := Without(p.toB, i);
      if p.toB[i].Parcel? then p.(ab := Apply(p.ab, LoseData(|Parcels(p.toB[..i])|)), toB := rest)
      else p.(ba := Apply(p.ba, LoseAck(|Replies(p.toB[..i])|)), toB := rest)
  }

  predicate CanMove(p: Pair, move: Move) {
    match move case FromA(act) => CanAct(p, act) case FromB(act) => CanAct(Swap(p), act)
  }

  function Moved(p: Pair, move: Move): Pair
    requires Carried(p) && CanMove(p, move)
  {
    match move case FromA(act) => Acted(p, act) case FromB(act) => Swap(Acted(Swap(p), act))
  }

  // ---- What a wire carries ----

  lemma {:induction false} WireConcat(x: seq<Item>, y: seq<Item>)
    ensures Parcels(x + y) == Parcels(x) + Parcels(y) && Replies(x + y) == Replies(x) + Replies(y)
    decreases |y|
  {
    if y == [] {
      ConcatEmpty(x);
      ConcatEmpty(Parcels(x));
      ConcatEmpty(Replies(x));
    } else {
      var k := |y| - 1;
      assert (x + y)[..|x + y| - 1] == x + y[..k];
      WireConcat(x, y[..k]);
      ConcatAssociative(Parcels(x), Parcels(y[..k]), if y[k].Parcel? then [y[k].data] else []);
      ConcatAssociative(Replies(x), Replies(y[..k]), if y[k].Reply? then [y[k].ack] else []);
    }
  }

  lemma OneItem(item: Item)
    ensures Parcels([item]) == (if item.Parcel? then [item.data] else [])
    ensures Replies([item]) == (if item.Reply? then [item.ack] else [])
  {
    assert [item][..0] == [];
  }

  lemma {:induction false} SentCarries(packets: seq<Data>)
    ensures Parcels(Sent(packets)) == packets && Replies(Sent(packets)) == []
    decreases |packets|
  {
    if packets != [] {
      var k := |packets| - 1;
      SentCarries(packets[..k]);
      assert Sent(packets)[..k] == Sent(packets[..k]);
      SplitAt(packets, k);
    }
  }

  lemma {:induction false} AnsweredCarries(acks: seq<Ack>)
    ensures Replies(Answered(acks)) == acks && Parcels(Answered(acks)) == []
    decreases |acks|
  {
    if acks != [] {
      var k := |acks| - 1;
      AnsweredCarries(acks[..k]);
      assert Answered(acks)[..k] == Answered(acks[..k]);
      SplitAt(acks, k);
    }
  }

  /** Where an item is among its own kind, and what is left without it. */
  lemma ItemAt(wire: seq<Item>, i: nat)
    requires i < |wire|
    ensures var (k, n) := (|Parcels(wire[..i])|, |Replies(wire[..i])|);
      if wire[i].Parcel? then
        && k < |Parcels(wire)| && Parcels(wire)[k] == wire[i].data
        && Parcels(Without(wire, i)) == Without(Parcels(wire), k) && Replies(Without(wire, i)) == Replies(wire)
      else
        && n < |Replies(wire)| && Replies(wire)[n] == wire[i].ack
        && Replies(Without(wire, i)) == Without(Replies(wire), n) && Parcels(Without(wire, i)) == Parcels(wire)
  {
    hide Parcels, Replies;
    var x, y := wire[..i], wire[i + 1..];
    assert wire == (x + [wire[i]]) + y;
    WireConcat(x + [wire[i]], y);
    WireConcat(x, [wire[i]]);
    WireConcat(x, y);
    OneItem(wire[i]);
    ConcatEmpty(Parcels(x));
    ConcatEmpty(Replies(x));
    if wire[i].Parcel? {
      Cut(Parcels(x), wire[i].data, Parcels(y));
    } else {
      Cut(Replies(x), wire[i].ack, Replies(y));
    }
  }

  lemma Cut<T>(x: seq<T>, e: T, y: seq<T>)
    ensures Without((x + [e]) + y, |x|) == x + y && ((x + [e]) + y)[|x|] == e
  {}

  lemma FirstItem(wire: seq<Item>)
    requires wire != []
    ensures if wire[0].Parcel? then
        && Parcels(wire) != [] && Parcels(wire)[0] == wire[0].data
        && Parcels(wire[1..]) == Parcels(wire)[1..] && Replies(wire[1..]) == Replies(wire)
      else
        && Replies(wire) != [] && Replies(wire)[0] == wire[0].ack
        && Replies(wire[1..]) == Replies(wire)[1..] && Parcels(wire[1..]) == Parcels(wire)
  {
    ItemAt(wire, 0);
    hide Parcels, Replies;
    assert wire[..0] == [] && Without(wire, 0) == wire[1..];
    NothingCarried();
    if wire[0].Parcel? {
      assert Without(Parcels(wire), 0) == Parcels(wire)[1..];
    } else {
      assert Without(Replies(wire), 0) == Replies(wire)[1..];
    }
  }

  lemma NothingCarried()
    ensures Parcels([]) == [] && Replies([]) == []
  {}

  // ---- Each move is a step of one direction ----

  ghost predicate Good(p: Pair) { Carried(p) && Inv(p.ab) && Inv(p.ba) }

  /** A sender's own steps only put packets at the end of its channel. */
  lemma LocalAppends(d: Dir, step: Step)
    requires |d.tags| == |d.tx.unacked| && (step.Send? || step.Tick? || step.Take?) && Possible(d, step)
    ensures d.flight <= Apply(d, step).flight && Apply(d, step).acks == d.acks
  {}

  lemma LocalKeeps(p: Pair, step: Step)
    requires Good(p) && CanAct(p, Local(step))
    ensures Good(Acted(p, Local(step)))
  {
    hide Inv, Apply, Parcels, Replies;
    StepKeepsInv(p.ab, step);
    LocalAppends(p.ab, step);
    var more := Apply(p.ab, step).flight[|p.ab.flight|..];
    WireConcat(p.toB, Sent(more));
    SentCarries(more);
    ConcatEmpty(Replies(p.toB));
    SplitAt(Apply(p.ab, step).flight, |p.ab.flight|);
  }

  lemma ArriveKeeps(p: Pair)
    requires Good(p) && p.toB != []
    ensures Good(Acted(p, Arrive))
  {
    hide Inv, Apply, Parcels, Replies;
    FirstItem(p.toB);
    if p.toB[0].Parcel? {
      StepKeepsInv(p.ab, DeliverData);
      DeliveryAppends(p.ab);
      var more := Apply(p.ab, DeliverData).acks[|p.ab.acks|..];
      WireConcat(p.toA, Answered(more));
      AnsweredCarries(more);
      ConcatEmpty(Parcels(p.toA));
      SplitAt(Apply(p.ab, DeliverData).acks, |p.ab.acks|);
    } else {
      StepKeepsInv(p.ba, DeliverAck);
      AckTakes(p.ba);
    }
  }

  lemma DeliveryAppends(d: Dir)
    requires |d.tags| == |d.tx.unacked| && d.flight != []
    ensures d.acks <= Apply(d, DeliverData).acks && Apply(d, DeliverData).flight == d.flight[1..]
  {}

  lemma AckTakes(d: Dir)
    requires |d.tags| == |d.tx.unacked| && d.acks != []
    ensures Apply(d, DeliverAck).acks == d.acks[1..] && Apply(d, DeliverAck).flight == d.flight
  {}

  lemma LoseKeeps(p: Pair, i: nat)
    requires Good(p) && i < |p.toB|
    ensures Good(Acted(p, Lose(i)))
  {
    hide Inv, Parcels, Replies;
    ItemAt(p.toB, i);
    if p.toB[i].Parcel? {
      StepKeepsInv(p.ab, LoseData(|Parcels(p.toB[..i])|));
    } else {
      StepKeepsInv(p.ba, LoseAck(|Replies(p.toB[..i])|));
    }
  }

  lemma MoveKeeps(p: Pair, move: Move)
    requires Good(p) && CanMove(p, move)
    ensures Good(Moved(p, move))
  {
    hide Acted;
    var q, act := if move.FromA? then p else Swap(p), move.act;
    match act
    case Local(step) => LocalKeeps(q, step);
    case Arrive => ArriveKeeps(q);
    case Lose(i) => LoseKeeps(q, i);
  }

  // ---- Runs ----

  ghost predicate LegalRun(p: Pair, run: seq<Move>)
    decreases |run|
  {
    run != [] ==> Carried(p) && CanMove(p, run[0]) && LegalRun(Moved(p, run[0]), run[1..])
  }

  ghost function AfterRun(p: Pair, run: seq<Move>): Pair
    requires LegalRun(p, run)
    decreases |run|
  {
    if run == [] then p else AfterRun(Moved(p, run[0]), run[1..])
  }

  lemma {:induction false} RunKeeps(p: Pair, run: seq<Move>)
    requires Good(p) && LegalRun(p, run)
    ensures Good(AfterRun(p, run))
    decreases |run|
  {
    hide Good, CanMove, Moved, Carried;
    if run != [] {
      MoveKeeps(p, run[0]);
      RunKeeps(Moved(p, run[0]), run[1..]);
    }
  }

  /** With both senders kept within the window, both directions are safe in every
      run over the two wires, whatever they lose. */
  lemma BothDirectionsAreSafe(m: nat, n: nat, run: seq<Move>)
    requires LegalRun(Pair(Init(m), Init(n), [], []), run)
    ensures var p := AfterRun(Pair(Init(m), Init(n), [], []), run); Safe(p.ab) && Safe(p.ba) && Carried(p)
  {
    hide LegalRun, AfterRun, Inv, Safe;
    InitInv(m);
    InitInv(n);
    RunKeeps(Pair(Init(m), Init(n), [], []), run);
    var p := AfterRun(Pair(Init(m), Init(n), [], []), run);
    InvIsSafe(p.ab);
    InvIsSafe(p.ba);
  }
}
