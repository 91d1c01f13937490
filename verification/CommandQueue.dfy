/** The client's and the device's command queues, message by message. */
module CommandQueue {
  import opened Bytes
  import opened Wrappers

  /** Buttons held for a while; which buttons is not looked at here. */
  datatype Hold = Hold(buttons: nat, ms: u16)

  datatype Message = Command(id: byte, hold: Option<Hold>) | Cancel | ReplaceOnNext

  datatype Reply = Finished(id: byte) | Dropped(id: byte)

  const U64: nat := 0x1_0000_0000_0000_0000
  const CHUNK: nat := 0xFFFF

  function TotalMs(holds: seq<Hold>): nat
    decreases |holds|
  {
    if holds == [] then 0 else TotalMs(holds[..|holds| - 1]) + holds[|holds| - 1].ms
  }

  lemma NoHolds()
    ensures TotalMs([]) == 0
  {}

  lemma TotalMsSnoc(holds: seq<Hold>, h: Hold)
    ensures TotalMs(holds + [h]) == TotalMs(holds) + h.ms
  {
    assert (holds + [h])[..|holds|] == holds;
  }

  predicate AllPress(holds: seq<Hold>, buttons: nat) {
    forall i :: 0 <= i < |holds| ==> holds[i].buttons == buttons && holds[i].ms > 0
  }

  lemma {:induction false} TotalMsConcat(a: seq<Hold>, b: seq<Hold>)
    ensures TotalMs(a + b) == TotalMs(a) + TotalMs(b)
    decreases |b|
  {
    if b == [] {
      assert a + b == a;
    } else {
      assert (a + b)[..|a + b| - 1] == a + b[..|b| - 1];
      TotalMsConcat(a, b[..|b| - 1]);
    }
  }

  /** A duration in whole milliseconds, rounded up, as the low 64 bits. */
  function Millis(nanos: nat): nat {
    (nanos + 999_999) / 1_000_000 % U64
  }

  /** These are the fewest whole milliseconds that last as long, those past 64
      bits wrapped round. */
  lemma MillisAreTheFewest(nanos: nat, ms: nat)
    requires nanos <= ms * 1_000_000 < nanos + 1_000_000
    ensures Millis(nanos) == ms % 0x1_0000_0000_0000_0000
  {
    assert (nanos + 999_999) / 1_000_000 == ms;
  }

  // ---- The client ----

  /** What the client does next depends on this much of it. */
  datatype ClientState = ClientState(nextId: byte, inFlight: set<byte>, local: seq<Hold>, unacked: nat)

  /** No hold is local and no command in flight: is_idle. */
  predicate NothingOut(c: ClientState) { c.local == [] && c.inFlight == {} }

  /** Whether the loop in pump goes round once more. */
  predicate MayIssue(c: ClientState, capacity: nat, maxUnacked: nat) {
    |c.inFlight| < capacity && c.unacked < maxUnacked && c.nextId !in c.inFlight && c.local != []
  }

  function WrappingAdd(id: byte, n: nat): byte {
    (id as int + n) % 256
  }

  lemma WrappingAddTwice(id: byte, m: nat, n: nat)
    ensures WrappingAdd(WrappingAdd(id, m), n) == WrappingAdd(id, m + n)
    ensures WrappingAdd(id, 0) == id
  {}

  function Issue(c: ClientState, packets: nat): ClientState
    requires c.local != []
  {
    ClientState(WrappingAdd(c.nextId, 1), c.inFlight + {c.nextId}, c.local[1..], c.unacked + packets)
  }

  /** The client after pumping, the commands it handed to the link, and whether
      every write went through. */
  datatype Pumping = Pumping(client: ClientState, sent: seq<Message>, ok: bool)

  /** A pump whose first `writes` writes go through. One that fails ends it, with
      its command booked all the same: the link has it and will send it again. */
  function Pumped(c: ClientState, capacity: nat, maxUnacked: nat, packets: nat, writes: nat): Pumping
    decreases |c.local|
  {
    if !MayIssue(c, capacity, maxUnacked) then Pumping(c, [], true)
    else
      var n, first := Issue(c, packets), Command(c.nextId, Some(c.local[0]));
      if writes == 0 then Pumping(n, [first], false)
      else
        var rest := Pumped(n, capacity, maxUnacked, packets, writes - 1);
        rest.(sent := [first] + rest.sent)
  }

  /** A pump sends holds in order under consecutive ids. */
  lemma {:induction false} PumpSendsInOrder(
      c: ClientState, capacity: nat, maxUnacked: nat, packets: nat, writes: nat)
    ensures var Pumping(d, sent, ok) := Pumped(c, capacity, maxUnacked, packets, writes);
      && |sent| <= |c.local| && d.local == c.local[|sent|..]
      && (forall i :: 0 <= i < |sent| ==> sent[i] == Command(WrappingAdd(c.nextId, i), Some(c.local[i])))
      && d.nextId == WrappingAdd(c.nextId, |sent|)
      && (ok ==> |sent| <= writes) && (!ok ==> |sent| == writes + 1)
    decreases |c.local|
  {
    hide WrappingAdd, MayIssue;
    WrappingAddTwice(c.nextId, 0, 0);
    if MayIssue(c, capacity, maxUnacked) {
      MayIssueHasOne(c, capacity, maxUnacked);
      if writes > 0 {
        var n := Issue(c, packets);
        PumpSendsInOrder(n, capacity, maxUnacked, packets, writes - 1);
        var sent := Pumped(n, capacity, maxUnacked, packets, writes - 1).sent;
        DropDrop(c.local, |sent|);
        forall i | 0 <= i < |sent| + 1
          ensures ([Command(c.nextId, Some(c.local[0]))] + sent)[i]
               == Command(WrappingAdd(c.nextId, i), Some(c.local[i]))
        {
          if i > 0 { WrappingAddTwice(c.nextId, 1, i - 1); }
        }
        WrappingAddTwice(c.nextId, 1, |sent|);
      }
    }
  }

  lemma MayIssueHasOne(c: ClientState, capacity: nat, maxUnacked: nat)
    requires MayIssue(c, capacity, maxUnacked)
    ensures c.local != []
  {}

  lemma DropDrop<T>(s: seq<T>, n: nat)
    requires n + 1 <= |s|
    ensures s[1..][n..] == s[n + 1..]
  {}

  /** All its ids are new and it never exceeds the capacity. Unless a write fails
      it stops only for want of room, of acknowledgements or of holds, or on an
      id still out. */
  lemma {:induction false} PumpFills(c: ClientState, capacity: nat, maxUnacked: nat, packets: nat, writes: nat)
    requires |c.inFlight| <= capacity
    ensures var Pumping(d, sent, ok) := Pumped(c, capacity, maxUnacked, packets, writes);
      |d.inFlight| == |c.inFlight| + |sent| <= capacity && (ok ==> !MayIssue(d, capacity, maxUnacked))
    decreases |c.local|
  {
    if MayIssue(c, capacity, maxUnacked) && writes > 0 {
      PumpFills(Issue(c, packets), capacity, maxUnacked, packets, writes - 1);
    }
  }

  /** The gate is checked before each command, not for the packets it needs: a
      pump may leave the link short of one command's packets over its limit. */
  lemma {:induction false} PumpOvershootsByLessThanACommand(
      c: ClientState, capacity: nat, maxUnacked: nat, packets: nat, writes: nat)
    requires packets > 0
    ensures var d := Pumped(c, capacity, maxUnacked, packets, writes).client;
      d.unacked <= c.unacked || d.unacked <= maxUnacked - 1 + packets
    decreases |c.local|
  {
    if MayIssue(c, capacity, maxUnacked) && writes > 0 {
      PumpOvershootsByLessThanACommand(Issue(c, packets), capacity, maxUnacked, packets, writes - 1);
    }
  }

  /** No pump leaves more unacknowledged than the limit it began within. */
  ghost predicate NeverOvershoots(capacity: nat, maxUnacked: nat, packets: nat) {
    forall c: ClientState, writes: nat :: c.unacked <= maxUnacked ==>
      Pumped(c, capacity, maxUnacked, packets, writes).client.unacked <= maxUnacked
  }

  /** The limit is kept exactly when a command needs no more than one packet. */
  lemma PumpKeepsTheLimitOnlyForOnePacket(capacity: nat, maxUnacked: nat, packets: nat)
    requires capacity > 0 && maxUnacked > 0
    ensures NeverOvershoots(capacity, maxUnacked, packets) <==> packets <= 1
  {
    if packets <= 1 {
      forall c: ClientState, writes: nat | c.unacked <= maxUnacked
        ensures Pumped(c, capacity, maxUnacked, packets, writes).client.unacked <= maxUnacked
      {
        if packets == 1 {
          PumpOvershootsByLessThanACommand(c, capacity, maxUnacked, packets, writes);
        } else {
          NoPacketsNoCost(c, capacity, maxUnacked, writes);
        }
      }
    } else {
      var c := ClientState(0, {}, [Hold(0, 1)], maxUnacked - 1);
      assert Pumped(c, capacity, maxUnacked, packets, 0).client.unacked == maxUnacked - 1 + packets;
    }
  }

  lemma {:induction false} NoPacketsNoCost(c: ClientState, capacity: nat, maxUnacked: nat, writes: nat)
    ensures Pumped(c, capacity, maxUnacked, 0, writes).client.unacked == c.unacked
    decreases |c.local|
  {
    if MayIssue(c, capacity, maxUnacked) && writes > 0 {
      NoPacketsNoCost(Issue(c, 0), capacity, maxUnacked, writes - 1);
    }
  }

  lemma PumpStops(c: ClientState, capacity: nat, maxUnacked: nat, packets: nat, writes: nat)
    requires |c.inFlight| >= capacity || c.unacked >= maxUnacked || c.nextId in c.inFlight || c.local == []
    ensures Pumped(c, capacity, maxUnacked, packets, writes) == Pumping(c, [], true)
  {}

  lemma PumpGoesOn(c: ClientState, capacity: nat, maxUnacked: nat, packets: nat, writes: nat)
    requires |c.inFlight| < capacity && c.unacked < maxUnacked && c.nextId !in c.inFlight && c.local != []
    ensures var n, first := Issue(c, packets), Command(c.nextId, Some(c.local[0]));
      Pumped(c, capacity, maxUnacked, packets, writes) ==
      if writes == 0 then Pumping(n, [first], false)
      else
        var rest := Pumped(n, capacity, maxUnacked, packets, writes - 1);
        rest.(sent := [first] + rest.sent)
  {}

  class Client {
    var nextCommandId: byte
    var inFlight: set<byte>
    var local: seq<Hold>
    var unacked: nat
    const queueCapacity: nat
    const maxUnacked: nat
    const packetsPerCommand: nat

    constructor (queueCapacity: nat, maxUnacked: nat, packetsPerCommand: nat)
      ensures View() == ClientState(0, {}, [], 0)
      ensures this.queueCapacity == queueCapacity && this.maxUnacked == maxUnacked
              && this.packetsPerCommand == packetsPerCommand
    {
      nextCommandId, inFlight, local, unacked := 0, {}, [], 0;
      this.queueCapacity, this.maxUnacked, this.packetsPerCommand := queueCapacity, maxUnacked, packetsPerCommand;
    }

    function View(): ClientState
      reads this
    {
      ClientState(nextCommandId, inFlight, local, unacked)
    }

    /** Moves local holds to the device while it has room; `writes` of its writes
        go through before one fails. */
    method Pump(writes: nat) returns (sent: seq<Message>, ok: bool)
      modifies this
      ensures Pumping(View(), sent, ok) == Pumped(old(View()), queueCapacity, maxUnacked, packetsPerCommand, writes)
    {
      hide MayIssue, WrappingAdd, Pumped;
      sent, ok := [], true;
      var left := writes;
      while |inFlight| < queueCapacity && unacked < maxUnacked
        invariant left >= 0
        invariant var rest := Pumped(View(), queueCapacity, maxUnacked, packetsPerCommand, left);
          Pumped(old(View()), queueCapacity, maxUnacked, packetsPerCommand, writes)
          == rest.(sent := sent + rest.sent)
        decreases |local|
      {
        var id := nextCommandId;
        if id in inFlight || local == [] {
          break;
        }
        var hold := local[0];
        PumpGoesOn(View(), queueCapacity, maxUnacked, packetsPerCommand, left);
        ghost var before, rest := sent, Pumped(Issue(View(), packetsPerCommand), queueCapacity, maxUnacked,
                                               packetsPerCommand, if left == 0 then 0 else left - 1).sent;
        local := local[1..];
        sent := sent + [Command(id, Some(hold))];
        unacked := unacked + packetsPerCommand;
        inFlight := inFlight + {id};
        nextCommandId := WrappingAdd(id, 1);
        assert before + ([Command(id, Some(hold))] + rest) == sent + rest;
        if left == 0 {
          ok := false;
          return;
        }
        left := left - 1;
      }
      PumpStops(View(), queueCapacity, maxUnacked, packetsPerCommand, left);
      assert sent + [] == sent;
    }

    /** Queues one input, in chunks a command can carry: the milliseconds are
        all there and every chunk but the last is full. */
    method Enqueue(buttons: nat, nanos: nat)
      modifies this`local
      ensures old(local) <= local
      ensures var added := local[|old(local)|..];
        TotalMs(added) == Millis(nanos) && AllPress(added, buttons)
        && forall i :: 0 <= i < |added| - 1 ==> added[i].ms == 0xFFFF
    {
      hide Millis, TotalMs;
      var ms := Millis(nanos);
      ghost var was := local;
      ghost var added: seq<Hold> := [];
      assert TotalMs(added) == 0 by { NoHolds(); }
      while ms > 0
        invariant 0 <= ms && local == was + added
        invariant TotalMs(added) + ms == Millis(nanos)
        invariant AllPress(added, buttons)
        invariant forall i :: 0 <= i < |added| - 1 ==> added[i].ms == CHUNK
        invariant ms > 0 && added != [] ==> added[|added| - 1].ms == CHUNK
      {
        var chunk := if ms < CHUNK then ms else CHUNK;
        TotalMsSnoc(added, Hold(buttons, chunk));
        local := local + [Hold(buttons, chunk)];
        added := added + [Hold(buttons, chunk)];
        ms := ms - chunk;
      }
      assert local[|was|..] == added;
    }

    /** Releases everything: what is local is forgotten, and the device is told
        to forget what it was sent and has not reported. */
    method Neutral() returns (sent: seq<Message>)
      modifies this
      ensures local == [] && inFlight == {} && nextCommandId == old(nextCommandId)
      ensures sent == if old(inFlight) == {} then [] else [Cancel]
    {
      local := [];
      sent := [];
      if inFlight != {} {
        inFlight := {};
        sent := [Cancel];
      }
    }

    method OnReply(reply: Reply)
      modifies this`inFlight
      ensures inFlight == old(inFlight) - {reply.id}
    {
      inFlight := inFlight - {reply.id};
    }

    method IsIdle() returns (idle: bool)
      ensures idle <==> NothingOut(View())
    {
      idle := local == [] && inFlight == {};
    }
  }

  // ---- The device ----

  datatype Slot = Slot(id: byte, sinkId: nat)

  /** The button sink: a log of every hold it was ever given, numbered by its
      place; a cancel drops the holds up to `base`, and those before `done` have
      elapsed. */
  datatype Sink = Sink(log: seq<Hold>, base: nat, done: nat)

  function Held(s: Sink, h: Hold): Sink { s.(log := s.log + [h]) }

  function Cancelled(s: Sink): Sink { s.(base := |s.log|) }

  /** The newest hold that has fully elapsed. */
  function CompletedThrough(s: Sink): Option<nat> {
    if s.done == 0 then None else Some(s.done - 1)
  }

  datatype DeviceState = DeviceState(sink: Sink, queue: seq<Slot>, replaceOnNext: bool)

  function Given(d: DeviceState, m: Message): DeviceState {
    match m
    case Cancel => d.(sink := Cancelled(d.sink), queue := [])
    case ReplaceOnNext => d.(replaceOnNext := true)
    case Command(_, None) => d
    case Command(id, Some(hold)) =>
      var e := if d.replaceOnNext then d.(sink := Cancelled(d.sink), queue := [], replaceOnNext := false) else d;
      e.(sink := Held(e.sink, hold), queue := e.queue + [Slot(id, |e.sink.log|)])
  }

  function GivenAll(d: DeviceState, ms: seq<Message>): DeviceState
    decreases |ms|
  {
    if ms == [] then d else GivenAll(Given(d, ms[0]), ms[1..])
  }

  /** The same wishes told at once: a cancel right before the first command that
      can be held after a replacement was asked for. */
  function AtOnce(ms: seq<Message>, asked: bool): seq<Message>
    decreases |ms|
  {
    if ms == [] then []
    else
      match ms[0]
      case ReplaceOnNext => AtOnce(ms[1..], true)
      case Cancel => [Cancel] + AtOnce(ms[1..], asked)
      case Command(id, hold) =>
        if hold.None? then [ms[0]] + AtOnce(ms[1..], asked)
        else (if asked then [Cancel, ms[0]] else [ms[0]]) + AtOnce(ms[1..], false)
  }

  /** Asking to replace on the next command is cancelling once that comes: however
      messages mix, sink and queue are those of the cancels told at once. */
  lemma {:induction false} ReplacingIsCancellingLater(d: DeviceState, ms: seq<Message>)
    ensures GivenAll(d, ms).(replaceOnNext := false)
         == GivenAll(d.(replaceOnNext := false), AtOnce(ms, d.replaceOnNext))
    decreases |ms|
  {
    if ms != [] {
      var d', rest := Given(d, ms[0]), ms[1..];
      ReplacingIsCancellingLater(d', rest);
      var plain := d.(replaceOnNext := false);
      match ms[0]
      case ReplaceOnNext =>
      case Cancel => GivenFirst(plain, Cancel, AtOnce(rest, d.replaceOnNext));
      case Command(_, hold) =>
        if hold.None? {
          GivenFirst(plain, ms[0], AtOnce(rest, d.replaceOnNext));
        } else if d.replaceOnNext {
          assert [Cancel, ms[0]] + AtOnce(rest, false) == [Cancel] + ([ms[0]] + AtOnce(rest, false));
          GivenFirst(plain, Cancel, [ms[0]] + AtOnce(rest, false));
          GivenFirst(Given(plain, Cancel), ms[0], AtOnce(rest, false));
        } else {
          GivenFirst(plain, ms[0], AtOnce(rest, false));
        }
    }
  }

  lemma GivenFirst(d: DeviceState, m: Message, rest: seq<Message>)
    ensures GivenAll(d, [m] + rest) == GivenAll(Given(d, m), rest)
  {
    assert ([m] + rest)[1..] == rest;
  }

  /** How many at the front of the queue have elapsed. */
  function Elapsed(queue: seq<Slot>, done: nat): (n: nat)
    ensures n <= |queue|
    decreases |queue|
  {
    if queue == [] || queue[0].sinkId >= done then 0 else 1 + Elapsed(queue[1..], done)
  }

  class Device {
    var sink: Sink
    var queue: seq<Slot>
    var replaceOnNext: bool

    constructor ()
      ensures View() == DeviceState(Sink([], 0, 0), [], false)
    {
      sink, queue, replaceOnNext := Sink([], 0, 0), [], false;
    }

    function View(): DeviceState
      reads this
    {
      DeviceState(sink, queue, replaceOnNext)
    }

    method OnMessage(message: Message) returns (reply: Option<Reply>)
      modifies this
      ensures View() == Given(old(View()), message)
      ensures reply == if message.Command? && message.hold.None? then Some(Dropped(message.id)) else None
    {
      reply := None;
      match message
      case Cancel =>
        sink := Cancelled(sink);
        queue := [];
      case ReplaceOnNext => replaceOnNext := true;
      case Command(id, hold) =>
        if hold.None? {
          reply := Some(Dropped(id));
        } else {
          if replaceOnNext {
            replaceOnNext := false;
            sink := Cancelled(sink);
            queue := [];
          }
          var sinkId := |sink.log|;
          sink := Held(sink, hold.value);
          queue := queue + [Slot(id, sinkId)];
        }
    }

    /** Reports the commands that have finished, in order and no others. */
    method Poll() returns (finished: seq<Reply>)
      modifies this`queue
      ensures var n := Elapsed(old(queue), sink.done);
        queue == old(queue)[n..] && |finished| == n
        && forall i :: 0 <= i < n ==> finished[i] == Finished(old(queue)[i].id)
    {
      finished := [];
      var done := CompletedThrough(sink);
      ghost var was, k := queue, 0;
      while queue != []
        invariant k <= |was| && queue == was[k..] && |finished| == k
        invariant Elapsed(was, sink.done) == k + Elapsed(queue, sink.done)
        invariant forall i :: 0 <= i < k ==> finished[i] == Finished(was[i].id)
        decreases |queue|
      {
        var front := queue[0];
        if done.None? || front.sinkId > done.value {
          break;
        }
        queue := queue[1..];
        finished := finished + [Finished(front.id)];
        k := k + 1;
      }
    }
  }
}
