/** Two emulators on a link cable, a host and its guest, through any number of
    connections, each of which the host's core may refuse: what each believes of
    the other, how far apart they run, and that they do not wait for each other. */
module LockstepRuns {
  import opened Lockstep
  import opened Seqs
  import opened Wrappers

  // ---- The machine ----

  /** Where a port is with the newest connection. */
  datatype Port = Idle | Greeted | Plugged

  /** One emulator, the host or the guest, and its port. `writer` is whether the port still writes to its
      connection, `running` whether the emulator is inside a frame; `sess` is the
      connection whose Connected it took last and `counts` the frames it finished
      in each. */
  datatype Side = Side(
    host: bool, session: Session, port: Port, writer: bool, running: bool, inbox: seq<Event>, sess: nat,
    counts: map<nat, nat>)

  /** Both sides, the wires to them, and the number of the newest connection. */
  datatype Pair = Pair(a: Side, b: Side, toA: seq<Event>, toB: seq<Event>, conn: nat)

  /** A host's core starts its session when the cable is plugged in; a guest's
      only once it reaches the host. */
  function Alone(host: bool): Side {
    Side(host, Session(host, false, 0, 0, None), Idle, false, false, [], 0, map[])
  }

  const START := Pair(Alone(true), Alone(false), [], [], 0)

  datatype Action =
    | Open                         // the port has the connection: writer first, then Connected
    | Read                         // the port reads a record off the wire
    | Fail                         // a write fails: no more are made
    | Close                        // the port's connection ends
    | GiveUp                       // ... before it had it
    | Take(accepts: bool)          // the emulator takes an event, also in the middle of a frame; whether
                                   // the core accepts the player it may bring
    | Start                        // ... begins a frame when not behind
    | Send(payload: seq<Bytes.byte>)
    | End                          // ... and finishes it
    | Stall                        // the wait for the peer times out

  datatype Step = Connect | ByA(act: Action) | ByB(act: Action)

  function Count(s: Side, conn: nat): nat { if conn in s.counts then s.counts[conn] else 0 }

  predicate Enabled(me: Side, wire: seq<Event>, act: Action) {
    match act
    case Open => me.port == Greeted
    case Read => me.port == Plugged && wire != []
    case Fail => me.writer
    case Close => me.port == Plugged
    case GiveUp => me.port == Greeted
    case Take(_) => me.inbox != []
    case Start => !me.running && !Behind(me.session)
    case Send(_) => true
    case End => me.running
    case Stall => !me.running && Behind(me.session) && me.inbox == []
  }

  /** A host whose core refuses hangs up: its port writes no more. */
  predicate Refuses(me: Side, accepts: bool)
    requires me.inbox != []
  {
    me.inbox[0].Connected? && me.host && !accepts
  }

  function Taken(me: Side, accepts: bool): Side
    requires me.inbox != []
  {
    var e := me.inbox[0];
    var after := me.(session := Dispatched(me.session, e, me.host, accepts), inbox := me.inbox[1..],
      writer := me.writer && !Refuses(me, accepts));
    if e.Connected? then after.(sess := e.conn, counts := me.counts[e.conn := 0]) else after
  }

  function Ended(me: Side): Side {
    var after := me.(running := false, session := Finished(me.session));
    if me.session.connected then after.(counts := me.counts[me.sess := Count(me, me.sess) + 1]) else after
  }

  function Acted(me: Side, wire: seq<Event>, conn: nat, act: Action): Side
    requires Enabled(me, wire, act)
  {
    match act
    case Open => me.(port := Plugged, writer := true, inbox := me.inbox + [Connected(conn)])
    case Read => me.(inbox := me.inbox + [wire[0]])
    case Fail => me.(writer := false)
    case Close => me.(port := Idle, writer := false, inbox := me.inbox + [Disconnected])
    case GiveUp => me.(port := Idle)
    case Take(accepts) => Taken(me, accepts)
    case Start => me.(running := true)
    case Send(_) => me
    case End => Ended(me)
    case Stall => me.(session := me.session.(stalledAt := Some(me.session.peerFrames)))
  }

  function Written(me: Side, act: Action): seq<Event> {
    if !me.writer then []
    else match act
         case Send(payload) => [Packet(payload)]
         case End => if me.session.connected then [PeerFrames(Finished(me.session).frames)] else []
         case _ => []
  }

  function Swap(p: Pair): Pair { Pair(p.b, p.a, p.toB, p.toA, p.conn) }

  /** A new connection needs both ports to be done with the last. */
  predicate CanStep(p: Pair, s: Step) {
    match s
    case Connect => p.a.port == Idle && p.b.port == Idle
    case ByA(act) => Enabled(p.a, p.toA, act)
    case ByB(act) => Enabled(p.b, p.toB, act)
  }

  function StepA(p: Pair, act: Action): Pair
    requires Enabled(p.a, p.toA, act)
  {
    Pair(Acted(p.a, p.toA, p.conn, act), p.b, if act.Read? then p.toA[1..] else p.toA,
         p.toB + Written(p.a, act), p.conn)
  }

  function Next(p: Pair, s: Step): Pair
    requires CanStep(p, s)
  {
    match s
    case Connect => Pair(p.a.(port := Greeted), p.b.(port := Greeted), [], [], p.conn + 1)
    case ByA(act) => StepA(p, act)
    case ByB(act) => Swap(StepA(Swap(p), act))
  }

  // ---- What a side will have heard ----

  /** What a side has been told: of which connection, whether it is up, and the
      peer's count. */
  datatype Told = Told(conn: nat, up: bool, frames: nat)

  function Hear(t: Told, e: Event): Told {
    match e
    case Connected(c) => Told(c, true, 0)
    case Packet(_) => t
    case PeerFrames(n) => t.(frames := n)
    case Disconnected => t.(up := false)
  }

  function HearAll(t: Told, events: seq<Event>): Told
    decreases |events|
  {
    if events == [] then t else Hear(HearAll(t, events[..|events| - 1]), events[|events| - 1])
  }

  function ToldTo(me: Side): Told { Told(me.sess, me.session.connected, me.session.peerFrames) }

  lemma HearSnoc(t: Told, x: seq<Event>, e: Event)
    ensures HearAll(t, x + [e]) == Hear(HearAll(t, x), e)
  {
    assert (x + [e])[..|x|] == x;
  }

  lemma {:induction false} HearTail(t: Told, x: seq<Event>)
    requires x != []
    ensures HearAll(t, x) == HearAll(Hear(t, x[0]), x[1..])
    decreases |x|
  {
    if |x| > 1 {
      var k := |x| - 1;
      assert x[1..][..k - 1] == x[..k][1..];
      HearTail(t, x[..k]);
    }
  }

  /** What its port holds for it, with the Connected it is about to get. */
  function Pending(me: Side, conn: nat): seq<Event> {
    me.inbox + if me.port == Greeted then [Connected(conn)] else []
  }

  /** What it will have been told once all under way is taken. */
  function Destined(me: Side, wire: seq<Event>, conn: nat): Told {
    HearAll(ToldTo(me), Pending(me, conn) + wire)
  }

  // ---- What every run keeps of one side ----

  /** Connections come up in order, after connection `k` and up to `top`. */
  predicate Rising(events: seq<Event>, k: nat, top: nat)
    decreases |events|
  {
    events != [] ==>
      match events[0]
      case Connected(c) => k < c <= top && Rising(events[1..], c, top)
      case _ => Rising(events[1..], k, top)
  }

  /** It turned the newest connection's player away. */
  predicate TurnedAway(me: Side) {
    me.port == Plugged && !me.session.connected && !Untaken(me)
  }

  /** It has the newest connection, or will, and did not turn its player away. */
  predicate Listens(me: Side) {
    me.port == Greeted || (me.port == Plugged && !TurnedAway(me))
  }

  predicate Untaken(me: Side) {
    exists i :: 0 <= i < |me.inbox| && me.inbox[i].Connected?
  }

  predicate Traffic(wire: seq<Event>) {
    forall i :: 0 <= i < |wire| ==> wire[i].Packet? || wire[i].PeerFrames?
  }

  predicate Sorted(me: Side, conn: nat) {
    var told := HearAll(ToldTo(me), me.inbox);
    && me.sess <= conn && Rising(me.inbox, me.sess, conn)
    && (me.writer ==> me.port == Plugged)
    && (me.port == Plugged ==> told.conn == conn && (told.up || TurnedAway(me)))
    && (TurnedAway(me) ==> !me.writer)
    && (me.port == Greeted ==> told.conn < conn)
    && (forall c :: c in me.counts ==> c <= me.sess)
    && (me.session.connected ==> me.sess in me.counts && me.session.frames == SaturatingAdd(me.counts[me.sess], 0))
  }

  lemma {:induction false} RisingBounds(events: seq<Event>, t: Told, top: nat)
    requires t.conn <= top && Rising(events, t.conn, top)
    ensures t.conn <= HearAll(t, events).conn <= top
    decreases |events|
  {
    if events != [] {
      HearTail(t, events);
      RisingBounds(events[1..], Hear(t, events[0]), top);
    }
  }

  lemma {:induction false} RisingSnoc(events: seq<Event>, t: Told, top: nat, e: Event)
    requires Rising(events, t.conn, top)
    requires e.Connected? ==> HearAll(t, events).conn < e.conn <= top
    ensures Rising(events + [e], t.conn, top)
    decreases |events|
  {
    if events == [] {
      assert [] + [e] == [e] && [e][1..] == [];
      assert HearAll(t, []) == t;
    } else {
      TailOfConcat(events, [e]);
      HearTail(t, events);
      RisingSnoc(events[1..], Hear(t, events[0]), top, e);
    }
  }

  lemma {:induction false} RisingWider(events: seq<Event>, k: nat, top: nat, more: nat)
    requires Rising(events, k, top) && top <= more
    ensures Rising(events, k, more)
    decreases |events|
  {
    if events != [] {
      RisingWider(events[1..], match events[0] case Connected(c) => c case _ => k, top, more);
    }
  }

  /** Without a Connected among the events the connection stays, and it can only
      go down. */
  lemma {:induction false} NoneUntaken(events: seq<Event>, t: Told)
    requires forall i :: 0 <= i < |events| ==> !events[i].Connected?
    ensures HearAll(t, events).conn == t.conn && (HearAll(t, events).up ==> t.up)
    ensures HearAll(t, events).up ==> forall i :: 0 <= i < |events| ==> !events[i].Disconnected?
    decreases |events|
  {
    if events != [] {
      NoneUntaken(events[..|events| - 1], t);
    }
  }

  /** A Connected among rising events leads past the first connection. */
  lemma {:induction false} UntakenRises(events: seq<Event>, t: Told, top: nat, i: nat)
    requires t.conn <= top && Rising(events, t.conn, top) && i < |events| && events[i].Connected?
    ensures t.conn < HearAll(t, events).conn
    decreases |events|
  {
    HearTail(t, events);
    if i == 0 {
      RisingBounds(events[1..], Hear(t, events[0]), top);
    } else {
      UntakenRises(events[1..], Hear(t, events[0]), top, i - 1);
      if events[0].Connected? { assert t.conn < events[0].conn; }
    }
  }

  /** What is heard of counts does not depend on whether the connection is up,
      and nothing does once another has come up. */
  lemma {:induction false} HearIgnoresUp(t: Told, x: seq<Event>)
    ensures var u, v := HearAll(t.(up := false), x), HearAll(t, x);
      && u.conn == v.conn && u.frames == v.frames
      && ((exists i :: 0 <= i < |x| && x[i].Connected?) ==> u == v)
    decreases |x|
  {
    if x != [] {
      HearIgnoresUp(t, x[..|x| - 1]);
    }
  }

  lemma TurnedAwayIsDown(me: Side)
    requires TurnedAway(me)
    ensures !HearAll(ToldTo(me), me.inbox).up
  {
    hide HearAll;
    NoneUntaken(me.inbox, ToldTo(me));
  }

  lemma UntakenSnoc(me: Side, e: Event)
    ensures Untaken(me.(inbox := me.inbox + [e])) <==> Untaken(me) || e.Connected?
  {
    var all := me.inbox + [e];
    assert all[|me.inbox|] == e;
    forall i | 0 <= i < |me.inbox| ensures all[i] == me.inbox[i] {}
  }

  /** A plugged side without an untaken Connected that did not turn its player
      away is in the newest connection. */
  lemma PluggedIsCurrent(me: Side, conn: nat)
    requires Sorted(me, conn) && me.port == Plugged && !Untaken(me) && !TurnedAway(me)
    ensures me.session.connected && me.sess == conn
    ensures forall i :: 0 <= i < |me.inbox| ==> !me.inbox[i].Disconnected?
  {
    hide Rising, HearAll;
    NoneUntaken(me.inbox, ToldTo(me));
  }

  /** One that has an untaken Connected is not, and has counted nothing in it. */
  lemma UntakenIsBefore(me: Side, conn: nat)
    requires Sorted(me, conn) && Untaken(me)
    ensures me.sess < conn && Count(me, conn) == 0
  {
    hide Rising, HearAll;
    var i :| 0 <= i < |me.inbox| && me.inbox[i].Connected?;
    UntakenRises(me.inbox, ToldTo(me), conn, i);
    RisingBounds(me.inbox, ToldTo(me), conn);
  }

  // ---- One step of one side ----

  lemma CountGrows(me: Side, wire: seq<Event>, conn: nat, act: Action, c: nat)
    requires Sorted(me, conn) && Enabled(me, wire, act)
    ensures Count(me, c) <= Count(Acted(me, wire, conn, act), c)
    ensures !(act.End? && me.session.connected && c == me.sess) ==> Count(Acted(me, wire, conn, act), c) == Count(me, c)
  {
    hide HearAll, Dispatched, Finished;
    if act.Take? && me.inbox[0].Connected? {
      assert me.sess < me.inbox[0].conn;
    }
  }

  /** What a side has been told after taking its first event. */
  function TakenTold(me: Side, accepts: bool): Told
    requires me.inbox != []
  {
    var t := Hear(ToldTo(me), me.inbox[0]);
    if Refuses(me, accepts) then t.(up := false) else t
  }

  lemma TakeIsHeard(me: Side, accepts: bool)
    requires me.inbox != []
    ensures ToldTo(Taken(me, accepts)) == TakenTold(me, accepts)
    ensures var before, after := HearAll(ToldTo(me), me.inbox), HearAll(ToldTo(Taken(me, accepts)), me.inbox[1..]);
      && after.conn == before.conn && after.frames == before.frames
      && (!Refuses(me, accepts) || Untaken(Taken(me, accepts)) ==> after == before)
  {
    hide HearAll;
    HearTail(ToldTo(me), me.inbox);
    HearIgnoresUp(Hear(ToldTo(me), me.inbox[0]), me.inbox[1..]);
  }

  lemma UntakenTail(me: Side, accepts: bool)
    requires me.inbox != []
    ensures Untaken(me) <==> me.inbox[0].Connected? || Untaken(Taken(me, accepts))
  {
    var rest := Taken(me, accepts).inbox;
    forall i | 0 <= i < |rest| ensures rest[i] == me.inbox[i + 1] {}
    if Untaken(me) {
      var i :| 0 <= i < |me.inbox| && me.inbox[i].Connected?;
      if i > 0 {
        assert rest[i - 1].Connected?;
      }
    }
  }

  lemma TakeKeepsSorted(me: Side, conn: nat, accepts: bool)
    requires Sorted(me, conn) && me.inbox != []
    ensures Sorted(Taken(me, accepts), conn)
  {
    hide HearAll, Untaken;
    TakeIsHeard(me, accepts);
    UntakenTail(me, accepts);
    if TurnedAway(Taken(me, accepts)) {
      TurnedAwayIsDown(Taken(me, accepts));
    }
  }

  lemma SortedKept(me: Side, wire: seq<Event>, conn: nat, act: Action)
    requires Sorted(me, conn) && Enabled(me, wire, act) && (act.Read? ==> Traffic(wire))
    ensures Sorted(Acted(me, wire, conn, act), conn)
  {
    hide HearAll, Rising, Untaken;
    match act {
      case Open =>
        HearSnoc(ToldTo(me), me.inbox, Connected(conn));
        RisingSnoc(me.inbox, ToldTo(me), conn, Connected(conn));
        UntakenSnoc(me.(port := Plugged, writer := true), Connected(conn));
      case Read =>
        HearSnoc(ToldTo(me), me.inbox, wire[0]);
        RisingSnoc(me.inbox, ToldTo(me), conn, wire[0]);
        UntakenSnoc(me, wire[0]);
      case Close =>
        HearSnoc(ToldTo(me), me.inbox, Disconnected);
        RisingSnoc(me.inbox, ToldTo(me), conn, Disconnected);
      case Take(accepts) => TakeKeepsSorted(me, conn, accepts);
      case End => EndKeepsSorted(me, conn);
      case _ => SameTold(me, Acted(me, wire, conn, act));
    }
  }

  /** What has been told and is untaken is the same for a side with the same
      inbox and session. */
  lemma SameTold(me: Side, after: Side)
    requires after.inbox == me.inbox && after.sess == me.sess && after.session.connected == me.session.connected
    requires after.session.peerFrames == me.session.peerFrames
    ensures ToldTo(after) == ToldTo(me) && (Untaken(after) <==> Untaken(me))
  {}

  lemma EndKeepsSorted(me: Side, conn: nat)
    requires Sorted(me, conn) && me.running
    ensures Sorted(Ended(me), conn)
  {
    hide HearAll, Rising, Untaken;
    SameTold(me, Ended(me));
  }

  // ---- What every clean run keeps of both ----

  /** Every report that will be heard speaks of frames the peer has finished in
      its connection. */
  predicate Good(events: seq<Event>, k: nat, up: bool, peer: Side)
    decreases |events|
  {
    events != [] ==>
      match events[0]
      case Connected(c) => Good(events[1..], c, true, peer)
      case PeerFrames(n) => (up ==> n <= Count(peer, k)) && Good(events[1..], k, up, peer)
      case Packet(_) => Good(events[1..], k, up, peer)
      case Disconnected => Good(events[1..], k, false, peer)
  }

  predicate GoodWire(wire: seq<Event>, most: nat) {
    Traffic(wire) && forall i :: 0 <= i < |wire| && wire[i].PeerFrames? ==> wire[i].frames <= most
  }

  /** The count the peer has reported in the newest connection. */
  function Present(peer: Side, conn: nat): nat {
    if peer.session.connected && peer.sess == conn then peer.session.frames else 0
  }

  /** One side's view of the other: never ahead of it, and only late as long as
      the peer's writer holds. */
  predicate View(me: Side, peer: Side, wire: seq<Event>, conn: nat) {
    && Good(me.inbox, me.sess, me.session.connected, peer)
    && (me.session.connected ==> me.session.peerFrames <= Count(peer, me.sess))
    && (me.port != Idle ==> Traffic(wire))
    && (Listens(me) ==>
          && GoodWire(wire, Count(peer, conn))
          && (peer.writer ==> Destined(me, wire, conn).frames == Present(peer, conn))
          && (peer.port == Greeted ==> wire == [] && Destined(me, wire, conn).frames == 0))
  }

  predicate Inv(p: Pair) {
    && Sorted(p.a, p.conn) && Sorted(p.b, p.conn)
    && View(p.a, p.b, p.toA, p.conn) && View(p.b, p.a, p.toB, p.conn)
  }

  /** A frame that ends while the port already writes to a newer connection whose
      Connected was not taken, and the peer has not ended that or turned its
      player away. */
  predicate StaleEnd(me: Side, peer: Side, act: Action) {
    act.End? && me.session.connected && me.writer && Untaken(me) && Listens(peer)
  }

  predicate Clean(p: Pair, s: Step) {
    match s
    case Connect => true
    case ByA(act) => !StaleEnd(p.a, p.b, act)
    case ByB(act) => !StaleEnd(p.b, p.a, act)
  }

  lemma {:induction false} GoodSnoc(events: seq<Event>, t: Told, peer: Side, e: Event)
    requires Good(events, t.conn, t.up, peer)
    requires e.PeerFrames? && HearAll(t, events).up ==> e.frames <= Count(peer, HearAll(t, events).conn)
    ensures Good(events + [e], t.conn, t.up, peer)
    decreases |events|
  {
    hide Count;
    if events == [] {
      assert [] + [e] == [e] && [e][1..] == [];
      assert HearAll(t, []) == t;
    } else {
      TailOfConcat(events, [e]);
      HearTail(t, events);
      GoodSnoc(events[1..], Hear(t, events[0]), peer, e);
    }
  }

  lemma {:induction false} GoodLater(events: seq<Event>, k: nat, up: bool, peer: Side, later: Side)
    requires Good(events, k, up, peer) && forall c :: Count(peer, c) <= Count(later, c)
    ensures Good(events, k, up, later) && Good(events, k, false, later)
    decreases |events|
  {
    hide Count;
    if events != [] {
      match events[0]
      case Connected(c) => GoodLater(events[1..], c, true, peer, later);
      case PeerFrames(_) => GoodLater(events[1..], k, up, peer, later);
      case Packet(_) => GoodLater(events[1..], k, up, peer, later);
      case Disconnected => GoodLater(events[1..], k, false, peer, later);
    }
  }

  lemma OpenKeepsView(me: Side, peer: Side, wire: seq<Event>, conn: nat)
    requires Sorted(me, conn) && View(me, peer, wire, conn) && me.port == Greeted
    ensures View(Acted(me, wire, conn, Open), peer, wire, conn)
  {
    hide HearAll, Good, Rising, Untaken;
    GoodSnoc(me.inbox, ToldTo(me), peer, Connected(conn));
    var after := Acted(me, wire, conn, Open);
    assert Pending(after, conn) == Pending(me, conn) by { ConcatEmpty(after.inbox); }
  }

  lemma ReadKeepsView(me: Side, peer: Side, wire: seq<Event>, conn: nat)
    requires Sorted(me, conn) && View(me, peer, wire, conn) && me.port == Plugged && wire != []
    ensures View(Acted(me, wire, conn, Read), peer, wire[1..], conn)
  {
    hide HearAll, Good, Rising, Untaken;
    if TurnedAway(me) { TurnedAwayIsDown(me); }
    GoodSnoc(me.inbox, ToldTo(me), peer, wire[0]);
    var after := Acted(me, wire, conn, Read);
    UntakenSnoc(me, wire[0]);
    ConcatEmpty(me.inbox);
    ConcatEmpty(after.inbox);
    assert (me.inbox + [wire[0]]) + wire[1..] == me.inbox + wire;
    assert Destined(after, wire[1..], conn) == Destined(me, wire, conn);
  }

  /** Taking an event leaves the counts that will be heard. */
  lemma TakeKeepsDestined(me: Side, wire: seq<Event>, conn: nat, accepts: bool)
    requires me.inbox != []
    ensures Destined(Taken(me, accepts), wire, conn).frames == Destined(me, wire, conn).frames
  {
    hide HearAll;
    TakeIsHeard(me, accepts);
    var rest := if me.port == Greeted then [Connected(conn)] else [];
    TailOfConcat(me.inbox, rest);
    TailOfConcat(me.inbox + rest, wire);
    HearTail(ToldTo(me), Pending(me, conn) + wire);
    HearIgnoresUp(Hear(ToldTo(me), me.inbox[0]), Pending(Taken(me, accepts), conn) + wire);
  }

  lemma TakeKeepsView(me: Side, peer: Side, wire: seq<Event>, conn: nat, accepts: bool)
    requires Sorted(me, conn) && View(me, peer, wire, conn) && me.inbox != []
    ensures View(Taken(me, accepts), peer, wire, conn)
  {
    hide HearAll, Rising, Count, Destined, Untaken, Good;
    TakeKeepsDestined(me, wire, conn, accepts);
    UntakenTail(me, accepts);
    FirstIsGood(me, peer, accepts);
  }

  lemma FirstIsGood(me: Side, peer: Side, accepts: bool)
    requires me.inbox != [] && Good(me.inbox, me.sess, me.session.connected, peer)
    requires me.session.connected ==> me.session.peerFrames <= Count(peer, me.sess)
    ensures var after := Taken(me, accepts);
      Good(after.inbox, after.sess, after.session.connected, peer)
      && (after.session.connected ==> after.session.peerFrames <= Count(peer, after.sess))
  {
    hide Count;
    var after := Taken(me, accepts);
    if me.inbox[0].Connected? {
      GoodLater(after.inbox, after.sess, true, peer, peer);
    }
  }

  lemma CloseKeepsView(me: Side, peer: Side, wire: seq<Event>, conn: nat)
    requires View(me, peer, wire, conn) && me.port == Plugged
    ensures View(Acted(me, wire, conn, Close), peer, wire, conn)
  {
    hide HearAll, Count, Rising, Good, Untaken;
    GoodSnoc(me.inbox, ToldTo(me), peer, Disconnected);
  }

  lemma MyViewKept(me: Side, peer: Side, wire: seq<Event>, conn: nat, act: Action)
    requires Sorted(me, conn) && View(me, peer, wire, conn) && Enabled(me, wire, act)
    ensures View(Acted(me, wire, conn, act), peer, if act.Read? then wire[1..] else wire, conn)
  {
    hide HearAll, Good, Rising, Count, GoodWire, Present, Sorted, Untaken;
    match act {
      case Open => OpenKeepsView(me, peer, wire, conn);
      case Read => ReadKeepsView(me, peer, wire, conn);
      case Close => CloseKeepsView(me, peer, wire, conn);
      case Take(accepts) => TakeKeepsView(me, peer, wire, conn, accepts);
      case End => SameTold(me, Ended(me));
      case _ => SameTold(me, Acted(me, wire, conn, act));
    }
  }

  lemma Later(me: Side, mine: seq<Event>, peer: Side, wire: seq<Event>, conn: nat, act: Action)
    requires Sorted(me, conn) && View(peer, me, wire, conn) && Enabled(me, mine, act)
    ensures var me' := Acted(me, mine, conn, act);
      && (forall c :: Count(me, c) <= Count(me', c))
      && Good(peer.inbox, peer.sess, peer.session.connected, me')
      && (peer.session.connected ==> peer.session.peerFrames <= Count(me', peer.sess))
      && (Listens(peer) ==> GoodWire(wire, Count(me', conn)))
  {
    hide HearAll, Good, Rising, Count, Present, Sorted, Destined, Listens;
    var me' := Acted(me, mine, conn, act);
    forall c ensures Count(me, c) <= Count(me', c) {
      CountGrows(me, mine, conn, act, c);
    }
    GoodLater(peer.inbox, peer.sess, peer.session.connected, me, me');
  }

  /** What the peer will hear changes only by what is written. */
  lemma WrittenIsHeard(peer: Side, wire: seq<Event>, conn: nat, e: Event)
    ensures Destined(peer, wire + [e], conn) == Hear(Destined(peer, wire, conn), e)
  {
    ConcatAssociative(Pending(peer, conn), wire, [e]);
    HearSnoc(ToldTo(peer), Pending(peer, conn) + wire, e);
  }

  lemma EndKeepsPeerView(me: Side, mine: seq<Event>, peer: Side, wire: seq<Event>, conn: nat)
    requires Sorted(me, conn) && View(peer, me, wire, conn) && me.running && !StaleEnd(me, peer, End)
    ensures View(peer, Ended(me), wire + Written(me, End), conn)
  {
    hide HearAll, Good, Rising, Destined, Listens, Untaken;
    Later(me, mine, peer, wire, conn, End);
    if Written(me, End) == [] {
      ConcatEmpty(wire);
    } else {
      var e := PeerFrames(Finished(me.session).frames);
      assert Written(me, End) == [e];
      if Listens(peer) {
        PluggedIsCurrent(me, conn);
        WrittenIsHeard(peer, wire, conn, e);
      }
    }
  }

  lemma TakeKeepsPeerView(me: Side, mine: seq<Event>, peer: Side, wire: seq<Event>, conn: nat, accepts: bool)
    requires Sorted(me, conn) && View(peer, me, wire, conn) && me.inbox != []
    ensures View(peer, Taken(me, accepts), wire, conn)
  {
    hide HearAll, Good, Destined, Listens;
    Later(me, mine, peer, wire, conn, Take(accepts));
    if me.writer && me.inbox[0].Disconnected? && me.sess == conn && !Untaken(me) {
      PluggedIsCurrent(me, conn);
    }
    if Untaken(me) { UntakenIsBefore(me, conn); }
  }

  lemma OpenKeepsPeerView(me: Side, mine: seq<Event>, peer: Side, wire: seq<Event>, conn: nat)
    requires Sorted(me, conn) && View(peer, me, wire, conn) && me.port == Greeted
    ensures View(peer, Acted(me, mine, conn, Open), wire, conn)
  {
    hide HearAll, Good, Destined, Listens;
    Later(me, mine, peer, wire, conn, Open);
    RisingBounds(me.inbox, ToldTo(me), conn);
  }

  lemma PeerViewKept(me: Side, mine: seq<Event>, peer: Side, wire: seq<Event>, conn: nat, act: Action)
    requires Sorted(me, conn) && View(peer, me, wire, conn) && Enabled(me, mine, act) && !StaleEnd(me, peer, act)
    ensures View(peer, Acted(me, mine, conn, act), wire + Written(me, act), conn)
  {
    hide HearAll, Good, Rising, Destined, Sorted, GoodWire, Listens;
    ConcatEmpty(wire);
    match act {
      case Open => OpenKeepsPeerView(me, mine, peer, wire, conn);
      case Take(accepts) => TakeKeepsPeerView(me, mine, peer, wire, conn, accepts);
      case End => EndKeepsPeerView(me, mine, peer, wire, conn);
      case Send(payload) => SendKeepsPeerView(me, peer, wire, conn, payload);
      case _ => Later(me, mine, peer, wire, conn, act);
    }
  }

  lemma SendKeepsPeerView(me: Side, peer: Side, wire: seq<Event>, conn: nat, payload: seq<Bytes.byte>)
    requires Sorted(me, conn) && View(peer, me, wire, conn)
    ensures View(peer, me, wire + Written(me, Send(payload)), conn)
  {
    hide HearAll, Good, Rising, Destined, Listens;
    ConcatEmpty(wire);
    if me.writer {
      WrittenIsHeard(peer, wire, conn, Packet(payload));
    }
  }

  lemma StepAKeeps(p: Pair, act: Action)
    requires Inv(p) && Enabled(p.a, p.toA, act) && !StaleEnd(p.a, p.b, act)
    ensures Inv(StepA(p, act))
  {
    hide Sorted, View, Acted, Written, Enabled, StaleEnd;
    SortedKeptIn(p, act);
    MyViewKept(p.a, p.b, p.toA, p.conn, act);
    PeerViewKept(p.a, p.toA, p.b, p.toB, p.conn, act);
  }

  lemma SortedKeptIn(p: Pair, act: Action)
    requires Inv(p) && Enabled(p.a, p.toA, act)
    ensures Sorted(Acted(p.a, p.toA, p.conn, act), p.conn)
  {
    hide Sorted, Acted, Destined, Good;
    SortedKept(p.a, p.toA, p.conn, act);
  }

  lemma ConnectKeeps(p: Pair)
    requires Inv(p) && CanStep(p, Connect)
    ensures Inv(Next(p, Connect))
  {
    hide HearAll, Good;
    GreetedSide(p.a, p.b, p.conn);
    GreetedSide(p.b, p.a, p.conn);
  }

  lemma GreetedSide(me: Side, peer: Side, conn: nat)
    requires Sorted(me, conn) && Good(me.inbox, me.sess, me.session.connected, peer)
    requires me.port == Idle && peer.port == Idle && !peer.writer
    requires me.session.connected ==> me.session.peerFrames <= Count(peer, me.sess)
    ensures var me', peer' := me.(port := Greeted), peer.(port := Greeted);
      Sorted(me', conn + 1) && View(me', peer', [], conn + 1)
  {
    hide HearAll;
    RisingBounds(me.inbox, ToldTo(me), conn);
    RisingWider(me.inbox, me.sess, conn, conn + 1);
    GoodLater(me.inbox, me.sess, me.session.connected, peer, peer.(port := Greeted));
    var me' := me.(port := Greeted);
    ConcatEmpty(Pending(me', conn + 1));
    HearSnoc(ToldTo(me), me.inbox, Connected(conn + 1));
  }

  lemma StepKeeps(p: Pair, s: Step)
    requires Inv(p) && CanStep(p, s) && Clean(p, s)
    ensures Inv(Next(p, s))
  {
    hide Sorted, View, Acted, Written, Enabled, StaleEnd;
    match s
    case Connect => ConnectKeeps(p);
    case ByA(act) => StepAKeeps(p, act);
    case ByB(act) => StepAKeeps(Swap(p), act);
  }

  // ---- Runs ----

  predicate LegalRun(p: Pair, run: seq<Step>)
    decreases |run|
  {
    run != [] ==> CanStep(p, run[0]) && LegalRun(Next(p, run[0]), run[1..])
  }

  function After(p: Pair, run: seq<Step>): Pair
    requires LegalRun(p, run)
    decreases |run|
  {
    if run == [] then p else After(Next(p, run[0]), run[1..])
  }

  predicate CleanRun(p: Pair, run: seq<Step>)
    requires LegalRun(p, run)
    decreases |run|
  {
    run != [] ==> Clean(p, run[0]) && CleanRun(Next(p, run[0]), run[1..])
  }

  lemma StartHolds()
    ensures Inv(START)
  {
    NothingToHear(ToldTo(START.a));
    NothingToHear(ToldTo(START.b));
  }

  lemma {:induction false} RunKeeps(p: Pair, run: seq<Step>)
    requires Inv(p) && LegalRun(p, run) && CleanRun(p, run)
    ensures Inv(After(p, run))
    decreases |run|
  {
    hide Inv, CanStep, Next, Clean;
    if run != [] {
      StepKeeps(p, run[0]);
      RunKeeps(Next(p, run[0]), run[1..]);
    }
  }

  /** A side believes its peer further than it is in the connection it is in. */
  predicate Overrates(me: Side, peer: Side) {
    me.session.connected && me.session.peerFrames > Count(peer, me.sess)
  }

  predicate Leads(p: Pair) { Overrates(p.a, p.b) || Overrates(p.b, p.a) }

  lemma InvDoesNotLead(p: Pair)
    requires Inv(p)
    ensures !Leads(p)
  {}

  /** Through any number of connections, stalls, losses of a writer and frames in
      which events are taken, no clean run leads. */
  lemma ReportsNeverLead(run: seq<Step>)
    requires LegalRun(START, run) && CleanRun(START, run)
    ensures !Leads(After(START, run))
  {
    hide LegalRun, After, CleanRun, Inv, Leads;
    StartHolds();
    RunKeeps(START, run);
    InvDoesNotLead(After(START, run));
  }

  // ---- Exactly the clean runs are safe ----

  predicate Delivery(s: Step) {
    !s.Connect? && (s.act.Open? || s.act.Read? || s.act.Take?)
  }

  predicate Deliveries(run: seq<Step>) {
    forall i :: 0 <= i < |run| ==> Delivery(run[i])
  }

  /** Delivering some of what is under way makes a side overrate its peer. */
  ghost predicate LeadsLater(p: Pair) {
    exists run :: LegalRun(p, run) && Deliveries(run) && Leads(After(p, run))
  }

  /** No state of the run leads when what is under way is delivered. */
  ghost predicate SafeRun(p: Pair, run: seq<Step>)
    requires LegalRun(p, run)
    decreases |run|
  {
    !LeadsLater(p) && (run != [] ==> SafeRun(Next(p, run[0]), run[1..]))
  }

  lemma {:induction false} DeliveriesAreClean(p: Pair, run: seq<Step>)
    requires LegalRun(p, run) && Deliveries(run)
    ensures CleanRun(p, run)
    decreases |run|
  {
    hide CanStep, Next;
    if run != [] {
      DeliveriesAreClean(Next(p, run[0]), run[1..]);
    }
  }

  lemma InvIsSafe(p: Pair)
    requires Inv(p)
    ensures !LeadsLater(p)
  {
    hide Inv, LegalRun, CleanRun, After, Leads, Deliveries;
    forall run | LegalRun(p, run) && Deliveries(run) ensures !Leads(After(p, run)) {
      DeliveriesAreClean(p, run);
      RunKeeps(p, run);
      InvDoesNotLead(After(p, run));
    }
  }

  /** B takes all that is under way to it. */
  lemma {:induction false} DeliverToB(p: Pair) returns (run: seq<Step>)
    requires p.b.port != Idle
    ensures LegalRun(p, run) && Deliveries(run)
    ensures ToldTo(After(p, run).b) == Destined(p.b, p.toB, p.conn) && After(p, run).a == p.a
    decreases (if p.b.port == Greeted then 2 else 0) + 2 * |p.toB| + |p.b.inbox|
  {
    hide LegalRun, After, HearAll;
    if p.b.inbox == [] && p.b.port == Plugged && p.toB == [] {
      assert Pending(p.b, p.conn) + p.toB == [];
      NothingToHear(ToldTo(p.b));
      EmptyRun(p);
      run := [];
    } else {
      var act := if p.b.inbox != [] then Take(true) else if p.b.port == Greeted then Open else Read;
      var q := Next(p, ByB(act));
      DeliveredTheSame(p.b, p.toB, p.conn, act);
      ConcatEmpty(p.toA);
      assert Written(p.b, act) == [];
      var rest := DeliverToB(q);
      Prepend(p, ByB(act), rest);
      run := [ByB(act)] + rest;
    }
  }

  lemma NothingToHear(t: Told)
    ensures HearAll(t, []) == t
  {}

  /** Delivering does not change what will have been told. */
  lemma DeliveredTheSame(me: Side, wire: seq<Event>, conn: nat, act: Action)
    requires Enabled(me, wire, act) && (act == Take(true) || act.Open? || act.Read?)
    ensures Destined(Acted(me, wire, conn, act), if act.Read? then wire[1..] else wire, conn) ==
      Destined(me, wire, conn)
  {
    hide HearAll;
    var after := Acted(me, wire, conn, act);
    var rest := if me.port == Greeted then [Connected(conn)] else [];
    ConcatEmpty(me.inbox);
    ConcatEmpty(after.inbox);
    if act.Take? {
      TailOfConcat(me.inbox, rest);
      TailOfConcat(me.inbox + rest, wire);
      HearTail(ToldTo(me), Pending(me, conn) + wire);
    } else if act.Read? {
      assert (me.inbox + [wire[0]]) + wire[1..] == me.inbox + wire;
    }
  }

  lemma EmptyRun(p: Pair)
    ensures LegalRun(p, []) && After(p, []) == p
  {}

  lemma Prepend(p: Pair, s: Step, run: seq<Step>)
    requires CanStep(p, s) && LegalRun(Next(p, s), run)
    ensures LegalRun(p, [s] + run) && After(p, [s] + run) == After(Next(p, s), run)
  {
    assert ([s] + run)[1..] == run;
  }

  /** A side that listens to the newest connection will be told of it. */
  lemma WillBeUp(me: Side, wire: seq<Event>, conn: nat)
    requires Sorted(me, conn) && Listens(me) && Traffic(wire)
    ensures Destined(me, wire, conn).conn == conn && Destined(me, wire, conn).up
  {
    hide Rising;
    ConcatEmpty(me.inbox);
    if me.port == Greeted { HearSnoc(ToldTo(me), me.inbox, Connected(conn)); }
    TrafficKeepsUp(ToldTo(me), Pending(me, conn), wire);
  }

  lemma {:induction false} TrafficKeepsUp(t: Told, x: seq<Event>, wire: seq<Event>)
    requires Traffic(wire)
    ensures HearAll(t, x + wire).conn == HearAll(t, x).conn && HearAll(t, x + wire).up == HearAll(t, x).up
    decreases |wire|
  {
    hide HearAll;
    if wire == [] {
      ConcatEmpty(x);
    } else {
      var k := |wire| - 1;
      assert x + wire == (x + wire[..k]) + [wire[k]];
      HearSnoc(t, x + wire[..k], wire[k]);
      TrafficKeepsUp(t, x, wire[..k]);
    }
  }

  /** After a stale end the old count is on its way to a peer that will take it
      for the new connection's. */
  lemma StaleEndLeads(p: Pair)
    requires Inv(p) && p.a.running && StaleEnd(p.a, p.b, End)
    ensures LeadsLater(StepA(p, End))
  {
    hide LegalRun, After, HearAll, Rising, Good, Destined;
    var q := StepA(p, End);
    var e := PeerFrames(Finished(p.a.session).frames);
    assert Written(p.a, End) == [e];
    UntakenIsBefore(p.a, p.conn);
    WillBeUp(p.b, p.toB, p.conn);
    WrittenIsHeard(p.b, p.toB, p.conn, e);
    var run := DeliverToB(q);
    assert ToldTo(After(q, run).b) == Told(p.conn, true, e.frames);
    assert Count(q.a, p.conn) == 0 && e.frames > 0;
  }

  lemma LeadsLaterSwaps(p: Pair)
    requires LeadsLater(p)
    ensures LeadsLater(Swap(p))
  {
    hide LegalRun, After, Leads;
    var run :| LegalRun(p, run) && Deliveries(run) && Leads(After(p, run));
    var other := SwappedRun(p, run);
    LeadsSwaps(After(p, run));
  }

  lemma LeadsSwaps(p: Pair)
    ensures Leads(Swap(p)) <==> Leads(p)
  {}

  lemma {:induction false} SwappedRun(p: Pair, run: seq<Step>) returns (other: seq<Step>)
    requires LegalRun(p, run) && Deliveries(run)
    ensures LegalRun(Swap(p), other) && Deliveries(other) && After(Swap(p), other) == Swap(After(p, run))
    decreases |run|
  {
    if run == [] {
      other := [];
    } else {
      var rest := SwappedRun(Next(p, run[0]), run[1..]);
      var s := if run[0].ByA? then ByB(run[0].act) else ByA(run[0].act);
      assert CanStep(Swap(p), s) && Next(Swap(p), s) == Swap(Next(p, run[0]));
      Prepend(Swap(p), s, rest);
      other := [s] + rest;
    }
  }

  lemma UncleanLeads(p: Pair, s: Step)
    requires Inv(p) && CanStep(p, s) && !Clean(p, s)
    ensures LeadsLater(Next(p, s))
  {
    hide Sorted, View, LeadsLater;
    match s
    case ByA(act) => StaleEndLeads(p);
    case ByB(act) =>
      StaleEndLeads(Swap(p));
      LeadsLaterSwaps(StepA(Swap(p), act));
  }

  lemma {:induction false} SafeIffCleanFrom(p: Pair, run: seq<Step>)
    requires Inv(p) && LegalRun(p, run)
    ensures SafeRun(p, run) <==> CleanRun(p, run)
    decreases |run|
  {
    hide Inv, CanStep, Next, Clean, LeadsLater;
    InvIsSafe(p);
    if run != [] {
      if Clean(p, run[0]) {
        StepKeeps(p, run[0]);
        SafeIffCleanFrom(Next(p, run[0]), run[1..]);
      } else {
        UncleanLeads(p, run[0]);
      }
    }
  }

  /** Across any number of connections no side comes to believe its peer further
      than it is, whatever the host's core answers, exactly when no frame ends
      while the port already holds a newer connection whose Connected is untaken
      and the peer still listens to it. */
  lemma SafeIffClean(run: seq<Step>)
    requires LegalRun(START, run)
    ensures SafeRun(START, run) <==> CleanRun(START, run)
  {
    hide LegalRun, SafeRun, CleanRun, Inv;
    StartHolds();
    SafeIffCleanFrom(START, run);
  }

  lemma {:induction false} RunAppend(p: Pair, x: seq<Step>, y: seq<Step>)
    requires LegalRun(p, x) && LegalRun(After(p, x), y)
    ensures LegalRun(p, x + y) && After(p, x + y) == After(After(p, x), y)
    ensures CleanRun(p, x + y) <==> CleanRun(p, x) && CleanRun(After(p, x), y)
    decreases |x|
  {
    hide CanStep, Next, Clean;
    if x == [] {
      ConcatEmpty(y);
    } else {
      TailOfConcat(x, y);
      RunAppend(Next(p, x[0]), x[1..], y);
    }
  }

  // ---- A run that leaks ----

  /** A side that is in connection `conn` and has heard of and run `n` frames. */
  function InStepAt(host: bool, conn: nat, n: nat, counts: map<nat, nat>): Side {
    var session := Session(true, true, SaturatingAdd(n, 0), SaturatingAdd(n, 0), None);
    Side(host, session, Plugged, true, false, [], conn, counts)
  }

  const JOINED := Pair(InStepAt(true, 1, 0, map[1 := 0]), InStepAt(false, 1, 0, map[1 := 0]), [], [], 1)

  /** One more step at the end of a run. */
  lemma Extend(p: Pair, x: seq<Step>, s: Step) returns (y: seq<Step>)
    requires LegalRun(p, x) && CanStep(After(p, x), s)
    ensures y == x + [s] && LegalRun(p, y) && After(p, y) == Next(After(p, x), s)
    ensures CleanRun(p, y) <==> CleanRun(p, x) && Clean(After(p, x), s)
    ensures NoStall(x) && (s.Connect? || !s.act.Stall?) ==> NoStall(y)
  {
    hide CanStep, Next, Clean;
    var q := Next(After(p, x), s);
    assert [s][1..] == [];
    assert LegalRun(q, []) && After(q, []) == q && CleanRun(q, []);
    RunAppend(p, x, [s]);
    y := x + [s];
  }

  predicate NoStall(run: seq<Step>) {
    forall i :: 0 <= i < |run| ==> run[i].Connect? || !run[i].act.Stall?
  }

  lemma Nothing(p: Pair)
    ensures LegalRun(p, []) && After(p, []) == p && CleanRun(p, []) && NoStall([])
  {}

  lemma Joins() returns (run: seq<Step>)
    ensures LegalRun(START, run) && After(START, run) == JOINED && CleanRun(START, run) && NoStall(run)
  {
    hide LegalRun, After, CleanRun, NoStall, HearAll;
    Nothing(START);
    run := Extend(START, [], Connect);
    run := Extend(START, run, ByA(Open));
    assert After(START, run).a.inbox == [Connected(1)];
    run := Extend(START, run, ByB(Open));
    assert After(START, run).b.inbox == [Connected(1)];
    run := Extend(START, run, ByA(Take(true)));
    assert After(START, run).a == JOINED.a;
    run := Extend(START, run, ByB(Take(true)));
    assert After(START, run) == JOINED;
  }

  /** The link breaks and is back before a frame ends. */
  function Broken(): Pair {
    Pair(JOINED.a.(running := true, inbox := [Disconnected, Connected(2)]),
         JOINED.b.(port := Greeted, writer := false, inbox := [Disconnected]), [], [], 2)
  }

  lemma Breaks() returns (run: seq<Step>)
    ensures LegalRun(JOINED, run) && After(JOINED, run) == Broken() && NoStall(run)
  {
    hide LegalRun, After, CleanRun, NoStall, HearAll;
    Nothing(JOINED);
    run := Extend(JOINED, [], ByA(Start));
    run := Extend(JOINED, run, ByA(Close));
    assert After(JOINED, run).a.inbox == [Disconnected];
    run := Extend(JOINED, run, ByB(Close));
    assert After(JOINED, run).b.inbox == [Disconnected];
    run := Extend(JOINED, run, Connect);
    run := Extend(JOINED, run, ByA(Open));
    assert After(JOINED, run) == Broken();
  }

  /** The frame's count, of the old connection, goes out on the new one. */
  lemma Leaks() returns (run: seq<Step>)
    ensures LegalRun(Broken(), run) && !CleanRun(Broken(), run) && NoStall(run)
    ensures var q := After(Broken(), run);
      q.conn == 2 && q.toB == [PeerFrames(1)] && q.b == JOINED.b.(inbox := [Disconnected, Connected(2)])
      && Count(q.a, 2) == 0
  {
    hide LegalRun, After, CleanRun, NoStall, HearAll;
    var p := Broken();
    Nothing(p);
    run := Extend(p, [], ByB(Open));
    assert After(p, run).b.inbox == [Disconnected, Connected(2)];
    assert After(p, run).a.inbox[1] == Connected(2);
    run := Extend(p, run, ByA(End));
  }

  /** From the start: a side that has finished nothing in the new connection is
      believed to have finished the frame of the old one. */
  lemma OldCountLeaksIntoANewSession() returns (run: seq<Step>)
    ensures LegalRun(START, run) && NoStall(run) && !CleanRun(START, run)
    ensures var q := After(START, run);
      q.b.session.connected && q.b.sess == q.conn == 2 && q.b.session.peerFrames == 1 && Count(q.a, 2) == 0
  {
    hide LegalRun, After, CleanRun, HearAll;
    run := Joins();
    var more := Breaks();
    RunAppend(START, run, more);
    run := run + more;
    more := Leaks();
    RunAppend(START, run, more);
    run := run + more;
    run := LeakArrives(run);
  }

  lemma LeakArrives(x: seq<Step>) returns (run: seq<Step>)
    requires LegalRun(START, x) && NoStall(x) && !CleanRun(START, x)
    requires var q := After(START, x);
      q.conn == 2 && q.toB == [PeerFrames(1)] && q.b == JOINED.b.(inbox := [Disconnected, Connected(2)])
      && Count(q.a, 2) == 0
    ensures LegalRun(START, run) && NoStall(run) && !CleanRun(START, run)
    ensures var q := After(START, run);
      q.b.session.connected && q.b.sess == q.conn == 2 && q.b.session.peerFrames == 1 && Count(q.a, 2) == 0
  {
    hide LegalRun, After, CleanRun, NoStall, HearAll;
    run := Extend(START, x, ByB(Read));
    assert After(START, run).b.inbox == [Disconnected, Connected(2), PeerFrames(1)];
    run := Extend(START, run, ByB(Take(true)));
    assert After(START, run).b.inbox == [Connected(2), PeerFrames(1)];
    run := Extend(START, run, ByB(Take(true)));
    assert After(START, run).b.inbox == [PeerFrames(1)];
    run := Extend(START, run, ByB(Take(true)));
  }

  // ---- Lockstep ----

  /** Not more than the slack and a frame ahead in any connection, unless the
      peer's count is stuck. */
  ghost predicate Beside(me: Side, peer: Side) {
    && (forall c :: NotAhead(Count(me, c), Count(peer, c), LOCKSTEP_SLACK + 1))
    && (me.session.connected && me.running ==> NotAhead(Count(me, me.sess), Count(peer, me.sess), LOCKSTEP_SLACK))
    && (me.session.connected ==> me.session.stalledAt == None)
  }

  predicate NotAhead(mine: nat, theirs: nat, lead: nat) {
    mine <= theirs + lead || theirs + LOCKSTEP_SLACK >= MAX_COUNT
  }

  ghost predicate Locked(p: Pair) { Beside(p.a, p.b) && Beside(p.b, p.a) }

  /** A frame begins only beside a peer that has finished as many. */
  lemma StartIsBeside(me: Side, peer: Side, wire: seq<Event>, conn: nat)
    requires Sorted(me, conn) && View(me, peer, wire, conn) && Beside(me, peer) && Enabled(me, wire, Start)
    ensures Beside(Acted(me, wire, conn, Start), peer)
  {
    hide HearAll, Rising, Good, GoodWire, Destined;
    forall c ensures NotAhead(Count(Acted(me, wire, conn, Start), c), Count(peer, c), LOCKSTEP_SLACK + 1) {}
  }

  lemma EndIsBeside(me: Side, peer: Side)
    requires Beside(me, peer) && me.running
    ensures Beside(Ended(me), peer)
  {
    forall c ensures NotAhead(Count(Ended(me), c), Count(peer, c), LOCKSTEP_SLACK + 1) {
      assert NotAhead(Count(me, c), Count(peer, c), LOCKSTEP_SLACK + 1);
    }
  }

  lemma TakeIsBeside(me: Side, peer: Side, conn: nat, accepts: bool)
    requires Sorted(me, conn) && Beside(me, peer) && me.inbox != []
    ensures Beside(Taken(me, accepts), peer)
  {
    hide HearAll;
    forall c ensures NotAhead(Count(Taken(me, accepts), c), Count(peer, c), LOCKSTEP_SLACK + 1) {
      CountGrows(me, [], conn, Take(accepts), c);
    }
  }

  lemma StaysBeside(me: Side, peer: Side, wire: seq<Event>, conn: nat, act: Action)
    requires Sorted(me, conn) && View(me, peer, wire, conn) && Beside(me, peer)
    requires Enabled(me, wire, act) && !act.Stall?
    ensures Beside(Acted(me, wire, conn, act), peer)
  {
    hide Sorted, View, NotAhead;
    if act.Take? {
      TakeIsBeside(me, peer, conn, act.accepts);
    } else if act.Start? {
      StartIsBeside(me, peer, wire, conn);
    } else if act.End? {
      EndIsBeside(me, peer);
    } else {
      SameCounts(me, Acted(me, wire, conn, act), peer);
    }
  }

  lemma SameCounts(me: Side, after: Side, peer: Side)
    requires Beside(me, peer) && after.counts == me.counts && after.session == me.session
    requires after.running == me.running && after.sess == me.sess
    ensures Beside(after, peer)
  {
    hide NotAhead;
    forall c ensures NotAhead(Count(after, c), Count(peer, c), LOCKSTEP_SLACK + 1) {
      assert NotAhead(Count(me, c), Count(peer, c), LOCKSTEP_SLACK + 1);
    }
  }

  /** A peer that goes on only falls less behind. */
  lemma PeerGoesOn(me: Side, mine: seq<Event>, peer: Side, conn: nat, act: Action)
    requires Sorted(peer, conn) && Beside(me, peer) && Enabled(peer, mine, act)
    ensures Beside(me, Acted(peer, mine, conn, act))
  {
    hide Sorted, Count, Acted;
    var after := Acted(peer, mine, conn, act);
    forall c ensures NotAhead(Count(me, c), Count(after, c), LOCKSTEP_SLACK + 1) {
      CountGrows(peer, mine, conn, act, c);
      assert NotAhead(Count(me, c), Count(peer, c), LOCKSTEP_SLACK + 1);
    }
    CountGrows(peer, mine, conn, act, me.sess);
  }

  lemma StepALocks(p: Pair, act: Action)
    requires Inv(p) && Locked(p) && Enabled(p.a, p.toA, act) && !act.Stall?
    ensures Locked(StepA(p, act))
  {
    hide Sorted, View, Acted, Beside, Written, Enabled;
    StaysBeside(p.a, p.b, p.toA, p.conn, act);
    PeerGoesOn(p.b, p.toA, p.a, p.conn, act);
  }

  lemma StepLocks(p: Pair, s: Step)
    requires Inv(p) && Locked(p) && CanStep(p, s) && (s.Connect? || !s.act.Stall?)
    ensures Locked(Next(p, s))
  {
    hide Sorted, View, Acted, Written, Enabled, Beside;
    match s
    case Connect =>
      SameBeside(p.a, p.b);
      SameBeside(p.b, p.a);
    case ByA(act) => StepALocks(p, act);
    case ByB(act) => StepALocks(Swap(p), act);
  }

  lemma SameBeside(me: Side, peer: Side)
    requires Beside(me, peer)
    ensures Beside(me.(port := Greeted), peer.(port := Greeted))
  {
    hide NotAhead;
    forall c ensures NotAhead(Count(me.(port := Greeted), c), Count(peer.(port := Greeted), c), LOCKSTEP_SLACK + 1) {
      assert NotAhead(Count(me, c), Count(peer, c), LOCKSTEP_SLACK + 1);
    }
  }

  lemma {:induction false} RunLocks(p: Pair, run: seq<Step>)
    requires Inv(p) && Locked(p) && LegalRun(p, run) && CleanRun(p, run) && NoStall(run)
    ensures Inv(After(p, run)) && Locked(After(p, run))
    decreases |run|
  {
    hide Inv, Locked, CanStep, Next, Clean;
    if run != [] {
      StepKeeps(p, run[0]);
      StepLocks(p, run[0]);
      RunLocks(Next(p, run[0]), run[1..]);
    }
  }

  /** In every clean run without a stall, through any number of connections and
      whatever the host's core answers, the counts of each connection differ by
      at most a frame, until the slower side's saturates. */
  lemma LockstepHolds(run: seq<Step>, c: nat)
    requires LegalRun(START, run) && CleanRun(START, run) && NoStall(run)
    ensures var q := After(START, run);
      Count(q.a, c) < 0xFFFF_FFFF || Count(q.b, c) < 0xFFFF_FFFF ==> WithinAFrame(q, c)
  {
    hide LegalRun, After, CleanRun, Inv, NoStall;
    StartHolds();
    RunLocks(START, run);
    var q := After(START, run);
    assert NotAhead(Count(q.a, c), Count(q.b, c), LOCKSTEP_SLACK + 1);
    assert NotAhead(Count(q.b, c), Count(q.a, c), LOCKSTEP_SLACK + 1);
  }

  predicate WithinAFrame(p: Pair, c: nat) {
    -1 <= Count(p.a, c) - Count(p.b, c) <= 1
  }

  // ---- The two roles ----

  predicate InRoles(p: Pair) {
    && p.a.host && p.a.session.started
    && !p.b.host && (p.b.session.started <==> p.b.session.connected)
  }

  lemma StepKeepsRoles(p: Pair, s: Step)
    requires InRoles(p) && CanStep(p, s)
    ensures InRoles(Next(p, s))
  {}

  /** In every run, clean or not, one side is the host and its core's session
      stays started; the other is the guest, and its core's session lasts exactly
      as long as it is connected. */
  lemma {:induction false} RunKeepsRoles(p: Pair, run: seq<Step>)
    requires InRoles(p) && LegalRun(p, run)
    ensures InRoles(After(p, run))
    decreases |run|
  {
    hide InRoles, CanStep, Next;
    if run != [] {
      StepKeepsRoles(p, run[0]);
      RunKeepsRoles(Next(p, run[0]), run[1..]);
    }
  }

  /** A guest that takes a Connected is connected, its core's session with it; a
      host exactly if its core accepts, and one that does not writes no more.
      Either has finished nothing in it. */
  lemma TakingConnects(me: Side, accepts: bool)
    requires me.inbox != [] && me.inbox[0].Connected?
    ensures var after := Taken(me, accepts);
      && (after.session.connected <==> !me.host || accepts)
      && (!me.host ==> after.session.started)
      && (after.writer <==> me.writer && after.session.connected)
      && after.sess == me.inbox[0].conn && Count(after, after.sess) == 0 && after.session.frames == 0
  {}

  // ---- Until the counts saturate ----

  ghost predicate AtMost(p: Pair, n: nat) {
    forall c :: Count(p.a, c) <= n && Count(p.b, c) <= n
  }

  ghost predicate HoldsUpTo(n: nat) {
    forall run :: LegalRun(START, run) && CleanRun(START, run) && NoStall(run) && AtMost(After(START, run), n) ==>
      forall c :: WithinAFrame(After(START, run), c)
  }

  /** Lockstep holds for all runs of at most `n` frames a side in a connection
      exactly up to one frame past the last count. */
  lemma LockstepHoldsUntilCountsSaturate(n: nat)
    ensures HoldsUpTo(n) <==> n <= 0x1_0000_0000
  {
    hide LegalRun, After, CleanRun, NoStall;
    if n <= MAX_COUNT + 1 {
      forall run | LegalRun(START, run) && CleanRun(START, run) && NoStall(run) && AtMost(After(START, run), n)
        ensures forall c :: WithinAFrame(After(START, run), c)
      {
        forall c ensures WithinAFrame(After(START, run), c) {
          StaysWithin(run, n, c);
        }
      }
    } else {
      var run := SaturatedRunsAlone();
      assert !WithinAFrame(After(START, run), 1);
    }
  }

  lemma StaysWithin(run: seq<Step>, n: nat, c: nat)
    requires LegalRun(START, run) && CleanRun(START, run) && NoStall(run)
    requires AtMost(After(START, run), n) && n <= MAX_COUNT + 1
    ensures WithinAFrame(After(START, run), c)
  {
    hide LegalRun, After, CleanRun, NoStall, Inv;
    StartHolds();
    RunLocks(START, run);
    var q := After(START, run);
    assert NotAhead(Count(q.a, c), Count(q.b, c), LOCKSTEP_SLACK + 1);
    assert NotAhead(Count(q.b, c), Count(q.a, c), LOCKSTEP_SLACK + 1);
  }

  function Level(n: nat): Pair {
    Pair(InStepAt(true, 1, n, map[1 := n]), InStepAt(false, 1, n, map[1 := n]), [], [], 1)
  }

  /** Both sides at `n` frames, each knowing the other's count. */
  lemma {:induction false} ToLevel(n: nat) returns (run: seq<Step>)
    requires n <= MAX_COUNT
    ensures LegalRun(START, run) && After(START, run) == Level(n) && CleanRun(START, run) && NoStall(run)
    decreases n
  {
    hide LegalRun, After, CleanRun, NoStall;
    if n == 0 {
      run := Joins();
    } else {
      run := ToLevel(n - 1);
      run := BothRun(run, n);
      run := BothHear(run, n);
    }
  }

  function Ran(n: nat): Pair
    requires n <= MAX_COUNT
  {
    var level, heard := Level(n), if n == 0 then 0 else n - 1;
    Pair(level.a.(session := level.a.session.(peerFrames := heard)),
         level.b.(session := level.b.session.(peerFrames := heard)), [PeerFrames(n)], [PeerFrames(n)], 1)
  }

  lemma BothRun(x: seq<Step>, n: nat) returns (run: seq<Step>)
    requires 0 < n <= MAX_COUNT
    requires LegalRun(START, x) && After(START, x) == Level(n - 1) && CleanRun(START, x) && NoStall(x)
    ensures LegalRun(START, run) && After(START, run) == Ran(n) && CleanRun(START, run) && NoStall(run)
  {
    hide LegalRun, After, CleanRun, NoStall;
    run := Extend(START, x, ByA(Start));
    run := Extend(START, run, ByB(Start));
    run := Extend(START, run, ByA(End));
    assert After(START, run).toB == [PeerFrames(n)];
    run := Extend(START, run, ByB(End));
    assert After(START, run).toA == [PeerFrames(n)];
    assert map[1 := n - 1][1 := n] == map[1 := n];
  }

  lemma BothHear(x: seq<Step>, n: nat) returns (run: seq<Step>)
    requires 0 < n <= MAX_COUNT
    requires LegalRun(START, x) && After(START, x) == Ran(n) && CleanRun(START, x) && NoStall(x)
    ensures LegalRun(START, run) && After(START, run) == Level(n) && CleanRun(START, run) && NoStall(run)
  {
    hide LegalRun, After, CleanRun, NoStall;
    run := Extend(START, x, ByA(Read));
    assert After(START, run).a.inbox == [PeerFrames(n)];
    run := Extend(START, run, ByB(Read));
    assert After(START, run).b.inbox == [PeerFrames(n)];
    run := Extend(START, run, ByA(Take(true)));
    run := Extend(START, run, ByB(Take(true)));
  }

  /** With both counts saturated one side runs two frames more alone: its peer's
      count no longer tells how far it is. */
  lemma SaturatedRunsAlone() returns (run: seq<Step>)
    ensures LegalRun(START, run) && CleanRun(START, run) && NoStall(run)
    ensures var q := After(START, run); AtMost(q, MAX_COUNT + 2) && !WithinAFrame(q, 1)
  {
    hide LegalRun, After, CleanRun, NoStall;
    run := ToLevel(MAX_COUNT);
    run := Extend(START, run, ByA(Start));
    run := Extend(START, run, ByA(End));
    assert After(START, run).a.counts == map[1 := MAX_COUNT + 1];
    run := Extend(START, run, ByA(Start));
    run := Extend(START, run, ByA(End));
    assert After(START, run).a.counts == map[1 := MAX_COUNT + 2];
  }

  // ---- Nothing gets stuck ----

  /** The connection is up both ways. */
  predicate Up(p: Pair) {
    p.a.port == Plugged && p.b.port == Plugged && p.a.writer && p.b.writer
  }

  /** What is still under way; reading and taking use it up. */
  function UnderWay(p: Pair): nat {
    2 * |p.toA| + |p.a.inbox| + 2 * |p.toB| + |p.b.inbox|
  }

  lemma DeliveryEnds(p: Pair, s: Step)
    requires CanStep(p, s) && Delivery(s) && !s.act.Open?
    ensures UnderWay(Next(p, s)) < UnderWay(p)
  {}

  /** With everything delivered each side knows the other's count, so the one
      that has finished no more frames is free to run. */
  lemma SlowerSideIsFree(p: Pair)
    requires Inv(p) && Up(p) && UnderWay(p) == 0
    ensures p.a.session.connected && p.b.session.connected && p.a.sess == p.b.sess == p.conn
    ensures p.a.session.frames <= p.b.session.frames ==> !Behind(p.a.session)
    ensures p.b.session.frames <= p.a.session.frames ==> !Behind(p.b.session)
  {
    hide Rising, Good;
    PluggedIsCurrent(p.a, p.conn);
    PluggedIsCurrent(p.b, p.conn);
    assert Pending(p.a, p.conn) + p.toA == [] && Pending(p.b, p.conn) + p.toB == [];
  }

  predicate IsFrame(s: Step) { !s.Connect? && (s.act.Start? || s.act.End?) }

  ghost predicate CanGoOn(p: Pair) {
    exists s :: CanStep(p, s) && (IsFrame(s) || (Delivery(s) && UnderWay(p) > 0))
  }

  /** In every clean run, whenever the connection is up, some delivery or frame is
      possible, and with nothing left to deliver it is a frame. */
  lemma NeverDeadlocks(run: seq<Step>)
    requires LegalRun(START, run) && CleanRun(START, run) && Up(After(START, run))
    ensures CanGoOn(After(START, run))
  {
    hide LegalRun, After, CleanRun, Inv, UnderWay;
    StartHolds();
    RunKeeps(START, run);
    SomeStep(After(START, run));
  }

  lemma SomeStep(q: Pair)
    requires Inv(q) && Up(q)
    ensures CanGoOn(q)
  {
    hide Inv;
    if q.toA != [] {
      assert CanStep(q, ByA(Read)) && Delivery(ByA(Read));
    } else if q.toB != [] {
      assert CanStep(q, ByB(Read)) && Delivery(ByB(Read));
    } else if q.a.inbox != [] {
      assert CanStep(q, ByA(Take(true))) && Delivery(ByA(Take(true)));
    } else if q.b.inbox != [] {
      assert CanStep(q, ByB(Take(true))) && Delivery(ByB(Take(true)));
    } else if q.a.running {
      assert CanStep(q, ByA(End)) && IsFrame(ByA(End));
    } else if q.b.running {
      assert CanStep(q, ByB(End)) && IsFrame(ByB(End));
    } else {
      SlowerSideIsFree(q);
      if q.a.session.frames <= q.b.session.frames {
        assert CanStep(q, ByA(Start)) && IsFrame(ByA(Start));
      } else {
        assert CanStep(q, ByB(Start)) && IsFrame(ByB(Start));
      }
    }
  }
}
