/** Client and device over a reliable stream each way: what every run keeps.
    Commands are numbered without wrapping; only the low byte is sent. */
module QueueRuns {
  import opened Bytes
  import opened CommandQueue
  import opened Seqs
  import opened Wrappers

  datatype Sent = Cmd(n: nat, hold: Hold) | CancelAll

  datatype Task = Task(n: nat, sinkId: nat)

  /** `cut` is where the commands after the last cancel begin on the way to the
      device, `past` where the replies to them begin on the way back; `enqueued`
      is everything queued since the last Neutral, and the sink's log holds its
      share of it from `mark` on. */
  datatype World = World(
    next: nat, inFlight: set<byte>, local: seq<Hold>,
    toDevice: seq<Sent>, sink: Sink, queue: seq<Task>, toClient: seq<nat>,
    enqueued: seq<Hold>, cut: nat, past: nat, mark: nat)

  const INITIAL := World(0, {}, [], [], Sink([], 0, 0), [], [], [], 0, 0, 0)

  function Id(n: nat): byte { n % 256 }

  datatype Step =
    | Enqueue(holds: seq<Hold>)  // execute, but for a Neutral
    | IssueOne                   // one round of pump
    | Neutral
    | Deliver                    // the device reads a message
    | Elapse(through: nat)       // holds elapse
    | Report                     // one round of the device's poll
    | Receive                    // the client reads a reply

  predicate CanStep(w: World, s: Step, capacity: nat) {
    match s
    case Enqueue(_) => true
    case IssueOne => |w.inFlight| < capacity && Id(w.next) !in w.inFlight && w.local != []
    case Neutral => true
    case Deliver => w.toDevice != []
    case Elapse(through) => w.sink.base < through && w.sink.done < through <= |w.sink.log|
    case Report => w.queue != [] && w.queue[0].sinkId < w.sink.done
    case Receive => w.toClient != []
  }

  function Less(n: nat): nat { if n == 0 then 0 else n - 1 }

  function Delivered(w: World): World
    requires w.toDevice != []
  {
    var v := w.(toDevice := w.toDevice[1..], cut := Less(w.cut));
    match w.toDevice[0]
    case CancelAll => v.(sink := Cancelled(w.sink), queue := [], mark := if w.cut == 1 then |w.sink.log| else w.mark)
    case Cmd(n, hold) => v.(sink := Held(w.sink, hold), queue := w.queue + [Task(n, |w.sink.log|)])
  }

  function Next(w: World, s: Step, capacity: nat): World
    requires CanStep(w, s, capacity)
  {
    match s
    case Enqueue(holds) => w.(local := w.local + holds, enqueued := w.enqueued + holds)
    case IssueOne =>
      w.(next := w.next + 1, inFlight := w.inFlight + {Id(w.next)}, local := w.local[1..],
         toDevice := w.toDevice + [Cmd(w.next, w.local[0])])
    case Neutral =>
      var v := w.(local := [], enqueued := []);
      if w.inFlight == {} then v.(mark := |w.sink.log|)
      else v.(inFlight := {}, toDevice := w.toDevice + [CancelAll], cut := |w.toDevice| + 1, past := |w.toClient|)
    case Deliver => Delivered(w)
    case Elapse(through) => w.(sink := w.sink.(done := through))
    case Report =>
      w.(queue := w.queue[1..], toClient := w.toClient + [w.queue[0].n],
          past := if w.cut > 0 then |w.toClient| + 1 else w.past)
    case Receive => w.(toClient := w.toClient[1..], past := Less(w.past), inFlight := w.inFlight - {Id(w.toClient[0])})
  }

  // ---- The steps are those of the client and the device ----

  function ClientOf(w: World, unacked: nat): ClientState { ClientState(Id(w.next), w.inFlight, w.local, unacked) }

  function Slots(queue: seq<Task>): seq<Slot> {
    seq(|queue|, i requires 0 <= i < |queue| => Slot(Id(queue[i].n), queue[i].sinkId))
  }

  function DeviceOf(w: World): DeviceState { DeviceState(w.sink, Slots(w.queue), false) }

  function OnWire(s: Sent): Message {
    match s case CancelAll => Cancel case Cmd(n, hold) => Command(Id(n), Some(hold))
  }

  lemma IssueIsTheClients(w: World, capacity: nat, maxUnacked: nat, unacked: nat, packets: nat)
    requires unacked < maxUnacked
    ensures CanStep(w, IssueOne, capacity) <==> MayIssue(ClientOf(w, unacked), capacity, maxUnacked)
    ensures CanStep(w, IssueOne, capacity) ==>
      ClientOf(Next(w, IssueOne, capacity), unacked + packets) == Issue(ClientOf(w, unacked), packets)
  {}

  lemma DeliverIsTheDevices(w: World)
    requires w.toDevice != []
    ensures DeviceOf(Delivered(w)) == Given(DeviceOf(w), OnWire(w.toDevice[0]))
  {
    match w.toDevice[0]
    case CancelAll =>
    case Cmd(n, _) =>
      assert Slots(w.queue + [Task(n, |w.sink.log|)]) == Slots(w.queue) + [Slot(Id(n), |w.sink.log|)];
  }

  lemma ReportIsTheDevices(w: World, capacity: nat)
    requires w.queue != []
    ensures CanStep(w, Report, capacity) <==> Elapsed(Slots(w.queue), w.sink.done) > 0
    ensures CanStep(w, Report, capacity) ==>
      Slots(Next(w, Report, capacity).queue) == Slots(w.queue)[1..]
      && Elapsed(Slots(w.queue), w.sink.done) == 1 + Elapsed(Slots(w.queue[1..]), w.sink.done)
  {
    assert Slots(w.queue[1..]) == Slots(w.queue)[1..];
  }

  // ---- What every run keeps ----

  function Nums(queue: seq<Task>): (r: seq<nat>)
    ensures |r| == |queue|
  {
    seq(|queue|, i requires 0 <= i < |queue| => queue[i].n)
  }

  function NumsSent(sent: seq<Sent>): (r: seq<nat>)
    ensures |r| == |sent|
  {
    seq(|sent|, i requires 0 <= i < |sent| => if sent[i].Cmd? then sent[i].n else 0)
  }

  function Holds(sent: seq<Sent>): (r: seq<Hold>)
    ensures |r| == |sent|
  {
    seq(|sent|, i requires 0 <= i < |sent| => if sent[i].Cmd? then sent[i].hold else Hold(0, 0))
  }

  predicate WireOk(w: World) {
    && w.cut <= |w.toDevice| && w.past <= |w.toClient|
    && (forall i :: w.cut <= i < |w.toDevice| ==> w.toDevice[i].Cmd?)
    && (w.cut > 0 ==> w.toDevice[w.cut - 1] == CancelAll && w.past == |w.toClient|)
  }

  /** The commands since the last Neutral whose reply has not been read, oldest
      first: replies, then what the device holds, then what it has not read. */
  function Current(w: World): seq<nat>
    requires WireOk(w)
  {
    w.toClient[w.past..] + (if w.cut > 0 then [] else Nums(w.queue)) + NumsSent(w.toDevice[w.cut..])
  }

  predicate Consecutive(s: seq<nat>, next: nat) {
    |s| <= next && forall i :: 0 <= i < |s| ==> s[i] == next - |s| + i
  }

  function Ids(s: seq<nat>): set<byte> { set n | n in s :: Id(n) }

  /** The commands from before the last Neutral that may still be replied to. */
  predicate Stale(w: World, n: nat)
    requires WireOk(w)
  {
    || n in w.toClient[..w.past]
    || (w.cut > 0 && (n in Nums(w.queue) || exists i :: 0 <= i < w.cut && w.toDevice[i].Cmd? && w.toDevice[i].n == n))
  }

  ghost predicate Numbered(w: World, capacity: nat)
    requires WireOk(w)
  {
    && Consecutive(Current(w), w.next) && |Current(w)| <= capacity
    && w.inFlight == Ids(Current(w))
    && forall n: nat :: Stale(w, n) ==> n < w.next - |Current(w)| && w.next <= n + 256
  }

  predicate SinkOk(w: World) {
    var n := |w.sink.log| - |w.queue|;
    && w.sink.base <= n && w.sink.done <= |w.sink.log|
    && (n > w.sink.base ==> w.sink.done >= n)
    && forall i :: 0 <= i < |w.queue| ==> w.queue[i].sinkId == n + i
  }

  /** Everything queued is in the sink, on its way or still here, in order. */
  predicate Conserved(w: World)
    requires WireOk(w)
  {
    if w.cut > 0 then w.enqueued == Holds(w.toDevice[w.cut..]) + w.local
    else
      && w.sink.base <= w.mark <= |w.sink.log|
      && w.enqueued == w.sink.log[w.mark..] + Holds(w.toDevice) + w.local
  }

  ghost predicate Inv(w: World, capacity: nat) {
    WireOk(w) && Numbered(w, capacity) && SinkOk(w) && Conserved(w)
  }

  /** As many commands as have an id of their own. */
  const ID_SPACE: nat := 256

  /** A command is sent less than `gap` after every one from before a Neutral
      that may still be replied to. */
  ghost predicate Within(w: World, s: Step, gap: nat)
    requires WireOk(w)
  {
    s.IssueOne? ==> forall n: nat :: Stale(w, n) ==> w.next < n + gap
  }

  // ---- Sequences of numbers and holds ----

  lemma NumsSentConcat(a: seq<Sent>, b: seq<Sent>)
    ensures NumsSent(a + b) == NumsSent(a) + NumsSent(b) && Holds(a + b) == Holds(a) + Holds(b)
  {}

  lemma IdsConcat(a: seq<nat>, n: nat)
    ensures Ids(a + [n]) == Ids(a) + {Id(n)}
  {
    forall b | b in Ids(a) + {Id(n)} ensures b in Ids(a + [n]) {
      if b in Ids(a) {
        var m :| m in a && Id(m) == b;
        assert m in a + [n];
      } else {
        assert n in a + [n];
      }
    }
  }

  /** Fewer than 256 consecutive numbers have distinct ids, and as many. */
  lemma {:induction false} IdsOfConsecutive(s: seq<nat>, next: nat)
    requires Consecutive(s, next) && |s| <= 256
    ensures |Ids(s)| == |s|
    ensures forall i, j :: 0 <= i < j < |s| ==> Id(s[i]) != Id(s[j])
    decreases |s|
  {
    hide Ids, Id;
    if s == [] {
      NoIds();
    } else {
      var k := |s| - 1;
      IdsOfConsecutive(s[..k], next - 1);
      forall i | 0 <= i < k ensures Id(s[i]) != Id(s[k]) {
        NearIdsDiffer(s[i], s[k]);
      }
      assert s == s[..k] + [s[k]];
      IdsConcat(s[..k], s[k]);
      IdNotIn(s[..k], s[k]);
      forall i, j | 0 <= i < j < |s| ensures Id(s[i]) != Id(s[j]) {
        if j < k { assert s[..k][i] == s[i] && s[..k][j] == s[j]; }
      }
    }
  }

  lemma NoIds()
    ensures Ids([]) == {}
  {}

  lemma NearIdsDiffer(m: nat, n: nat)
    requires m < n < m + 256
    ensures Id(m) != Id(n)
  {}

  lemma IdNotIn(s: seq<nat>, n: nat)
    requires forall i :: 0 <= i < |s| ==> Id(s[i]) != Id(n)
    ensures Id(n) !in Ids(s)
  {}

  /** Dropping the first of consecutive numbers drops its id and no other. */
  lemma IdsOfTail(s: seq<nat>, next: nat)
    requires Consecutive(s, next) && 0 < |s| <= 256
    ensures Ids(s[1..]) == Ids(s) - {Id(s[0])}
  {
    IdsOfConsecutive(s, next);
    forall b | b in Ids(s) - {Id(s[0])} ensures b in Ids(s[1..]) {
      var n :| n in s && Id(n) == b;
      var i :| 0 <= i < |s| && s[i] == n;
      assert s[1..][i - 1] == n;
    }
    forall b | b in Ids(s[1..]) ensures b in Ids(s) - {Id(s[0])} {
      var n :| n in s[1..] && Id(n) == b;
      var i :| 0 <= i < |s[1..]| && s[1..][i] == n;
      assert s[i + 1] == n;
    }
  }

  // ---- Each step ----

  lemma EnqueueKeeps(w: World, holds: seq<Hold>, capacity: nat)
    requires Inv(w, capacity)
    ensures Inv(Next(w, Enqueue(holds), capacity), capacity)
  {
    hide Ids, Id, Consecutive, SinkOk;
    var v := Next(w, Enqueue(holds), capacity);
    assert Current(v) == Current(w);
    assert forall n :: Stale(v, n) <==> Stale(w, n);
    SameSink(w, v);
    var before := if w.cut > 0 then Holds(w.toDevice[w.cut..]) else w.sink.log[w.mark..] + Holds(w.toDevice);
    ConcatAssociative(before, w.local, holds);
  }

  lemma IssueKeeps(w: World, capacity: nat)
    requires capacity <= 255 && Inv(w, capacity) && CanStep(w, IssueOne, capacity) && Within(w, IssueOne, ID_SPACE)
    ensures Inv(Next(w, IssueOne, capacity), capacity)
  {
    hide Ids, Id, SinkOk, Numbered, Conserved, Within;
    SameSink(w, Next(w, IssueOne, capacity));
    IssueNumbers(w, capacity);
    IssueConserves(w, capacity);
  }

  lemma IssueNumbers(w: World, capacity: nat)
    requires capacity <= 255 && WireOk(w) && Numbered(w, capacity) && CanStep(w, IssueOne,
        capacity) && Within(w, IssueOne, ID_SPACE)
    ensures WireOk(Next(w, IssueOne, capacity)) && Numbered(Next(w, IssueOne, capacity), capacity)
  {
    hide Ids, Id;
    var v := Next(w, IssueOne, capacity);
    var c := Cmd(w.next, w.local[0]);
    assert v.toDevice[w.cut..] == w.toDevice[w.cut..] + [c];
    NumsSentConcat(w.toDevice[w.cut..], [c]);
    assert NumsSent([c]) == [w.next];
    assert Current(v) == Current(w) + [w.next];
    IdsOfConsecutive(Current(w), w.next);
    IdsConcat(Current(w), w.next);
    assert v.toDevice[..w.cut] == w.toDevice[..w.cut];
    assert forall n :: Stale(v, n) ==> Stale(w, n);
  }

  lemma IssueConserves(w: World, capacity: nat)
    requires WireOk(w) && Conserved(w) && CanStep(w, IssueOne, capacity)
    ensures WireOk(Next(w, IssueOne, capacity)) && Conserved(Next(w, IssueOne, capacity))
  {
    var v := Next(w, IssueOne, capacity);
    var c, h := Cmd(w.next, w.local[0]), w.local[0];
    assert v.toDevice[w.cut..] == w.toDevice[w.cut..] + [c];
    assert w.toDevice[0..] == w.toDevice && v.toDevice[0..] == v.toDevice;
    NumsSentConcat(w.toDevice[w.cut..], [c]);
    assert Holds([c]) == [h];
    assert w.local == [h] + w.local[1..];
    if w.cut > 0 {
      ConcatAssociative(Holds(w.toDevice[w.cut..]), [h], w.local[1..]);
    } else {
      var log, sent := w.sink.log[w.mark..], Holds(w.toDevice);
      assert (log + sent) + ([h] + w.local[1..]) == (log + (sent + [h])) + w.local[1..];
    }
  }

  lemma NeutralKeeps(w: World, capacity: nat)
    requires capacity <= 255 && Inv(w, capacity)
    ensures Inv(Next(w, Neutral, capacity), capacity)
  {
    hide Inv, Next;
    if w.inFlight == {} {
      IdleNeutralKeeps(w, capacity);
    } else {
      CancellingNeutralKeeps(w, capacity);
    }
  }

  lemma IdleNeutralKeeps(w: World, capacity: nat)
    requires capacity <= 255 && Inv(w, capacity) && w.inFlight == {}
    ensures Inv(Next(w, Neutral, capacity), capacity)
  {
    hide Id, Ids, Consecutive;
    var v := Next(w, Neutral, capacity);
    NoneInFlight(w, capacity);
    assert Current(v) == Current(w) == [];
    assert w.toDevice[w.cut..] == [] && w.toDevice[0..] == w.toDevice;
    assert forall n :: Stale(v, n) <==> Stale(w, n);
  }

  lemma CancellingNeutralKeeps(w: World, capacity: nat)
    requires capacity <= 255 && Inv(w, capacity) && w.inFlight != {}
    ensures Inv(Next(w, Neutral, capacity), capacity)
  {
    hide Id, Ids, SinkOk;
    var v := Next(w, Neutral, capacity);
    SameSink(w, v);
    assert v.toDevice[v.cut..] == [] && v.toClient[v.past..] == [] && Current(v) == [];
    NoIds();
    forall n: nat | Stale(v, n) ensures n < w.next && w.next <= n + 256 {
      NeutralMakesStale(w, v, n);
      WasOutstanding(w, n);
    }
  }

  lemma NeutralMakesStale(w: World, v: World, n: nat)
    requires WireOk(w) && WireOk(v) && v.toDevice == w.toDevice + [CancelAll] && v.cut == |v.toDevice|
    requires v.queue == w.queue && v.toClient == w.toClient && Stale(v, n)
    ensures n in w.toClient || n in Nums(w.queue)
         || exists i :: 0 <= i < |w.toDevice| && w.toDevice[i].Cmd? && w.toDevice[i].n == n
  {
    if n !in w.toClient && n !in Nums(w.queue) {
      var i :| 0 <= i < v.cut && v.toDevice[i].Cmd? && v.toDevice[i].n == n;
      assert w.toDevice[i] == v.toDevice[i];
    }
  }

  lemma NoneInFlight(w: World, capacity: nat)
    requires capacity <= 255 && WireOk(w) && Numbered(w, capacity) && w.inFlight == {}
    ensures Current(w) == []
  {
    hide Current, Ids, Consecutive;
    IdsOfConsecutive(Current(w), w.next);
  }

  lemma SameSink(w: World, v: World)
    requires SinkOk(w) && v.sink == w.sink && v.queue == w.queue
    ensures SinkOk(v)
  {}

  /** What a Neutral makes stale was stale or current before. */
  lemma WasOutstanding(w: World, n: nat)
    requires WireOk(w)
    requires n in w.toClient || n in Nums(w.queue)
             || exists i :: 0 <= i < |w.toDevice| && w.toDevice[i].Cmd? && w.toDevice[i].n == n
    ensures Stale(w, n) || n in Current(w)
  {
    var sent := w.toDevice[w.cut..];
    if n in w.toClient {
      SplitAt(w.toClient, w.past);
    } else if n !in Nums(w.queue) {
      var i :| 0 <= i < |w.toDevice| && w.toDevice[i].Cmd? && w.toDevice[i].n == n;
      if i >= w.cut {
        assert NumsSent(sent)[i - w.cut] == n;
      }
    }
  }

  lemma DeliverKeeps(w: World, capacity: nat)
    requires Inv(w, capacity) && w.toDevice != []
    ensures Inv(Delivered(w), capacity)
  {
    hide Id, Ids, Consecutive, SinkOk, Numbered, Conserved;
    DeliverSinks(w);
    DeliverNumbers(w, capacity);
    DeliverConserves(w);
  }

  lemma DeliverSinks(w: World)
    requires WireOk(w) && SinkOk(w) && w.toDevice != []
    ensures WireOk(Delivered(w)) && SinkOk(Delivered(w))
  {}

  lemma DeliverNumbers(w: World, capacity: nat)
    requires WireOk(w) && Numbered(w, capacity) && w.toDevice != []
    ensures WireOk(Delivered(w)) && Numbered(Delivered(w), capacity)
  {
    hide Id, Ids, Consecutive;
    var v, head := Delivered(w), w.toDevice[0];
    if w.cut > 0 {
      assert w.toDevice[1..][w.cut - 1..] == w.toDevice[w.cut..];
      assert Current(v) == Current(w) by {
        if head == CancelAll { assert Nums([]) == []; }
      }
      forall n: nat | Stale(v, n) ensures Stale(w, n) {
        StaleWasStale(w, n);
      }
    } else {
      assert w.toDevice[0..] == w.toDevice && v.toDevice[0..] == w.toDevice[1..];
      assert Nums(v.queue) == Nums(w.queue) + [head.n];
      assert NumsSent(w.toDevice) == [head.n] + NumsSent(w.toDevice[1..]);
      assert Current(v) == Current(w);
      assert forall n :: Stale(v, n) <==> Stale(w, n);
    }
  }

  lemma StaleWasStale(w: World, n: nat)
    requires WireOk(w) && w.toDevice != [] && w.cut > 0 && WireOk(Delivered(w)) && Stale(Delivered(w), n)
    ensures Stale(w, n)
  {
    var v, head := Delivered(w), w.toDevice[0];
    if n in v.toClient[..v.past] {
    } else if n in Nums(v.queue) {
      if head.Cmd? {
        assert Nums(v.queue) == Nums(w.queue) + [head.n];
        if n !in Nums(w.queue) { assert w.toDevice[0].n == n; }
      }
    } else {
      var i :| 0 <= i < v.cut && v.toDevice[i].Cmd? && v.toDevice[i].n == n;
      assert w.toDevice[i + 1].n == n;
    }
  }

  lemma DeliverConserves(w: World)
    requires WireOk(w) && Conserved(w) && w.toDevice != []
    ensures WireOk(Delivered(w)) && Conserved(Delivered(w))
  {
    var v, head := Delivered(w), w.toDevice[0];
    if w.cut > 1 {
      assert w.toDevice[1..][w.cut - 1..] == w.toDevice[w.cut..];
    } else if w.cut == 1 {
      assert v.sink.log[v.mark..] == [];
      assert [] + Holds(w.toDevice[1..]) == Holds(w.toDevice[1..]);
    } else {
      var log, rest := w.sink.log[w.mark..], Holds(w.toDevice[1..]);
      assert v.sink.log[w.mark..] == log + [head.hold];
      assert Holds(w.toDevice) == [head.hold] + rest;
      assert (log + [head.hold]) + rest == log + ([head.hold] + rest);
    }
  }

  lemma ElapseKeeps(w: World, through: nat, capacity: nat)
    requires Inv(w, capacity) && CanStep(w, Elapse(through), capacity)
    ensures Inv(Next(w, Elapse(through), capacity), capacity)
  {
    hide Ids, Id, Consecutive;
    var v := Next(w, Elapse(through), capacity);
    assert Current(v) == Current(w);
    assert forall n :: Stale(v, n) <==> Stale(w, n);
  }

  lemma ReportKeeps(w: World, capacity: nat)
    requires Inv(w, capacity) && CanStep(w, Report, capacity)
    ensures Inv(Next(w, Report, capacity), capacity)
  {
    hide Ids, Id, Consecutive;
    var v, n := Next(w, Report, capacity), w.queue[0].n;
    assert Nums(w.queue) == [n] + Nums(w.queue[1..]);
    if w.cut > 0 {
      assert v.toClient[v.past..] == [] == w.toClient[w.past..];
      assert Current(v) == Current(w);
      assert v.toClient[..v.past] == w.toClient + [n] && w.toClient[..w.past] == w.toClient;
      forall m: nat | Stale(v, m) ensures Stale(w, m) {
        if m in v.toClient[..v.past] && m !in w.toClient { assert m == n; }
      }
    } else {
      var back, rest := w.toClient[w.past..], NumsSent(w.toDevice[w.cut..]);
      assert v.toClient[v.past..] == back + [n];
      assert (back + [n]) + Nums(w.queue[1..]) == back + ([n] + Nums(w.queue[1..]));
      assert Current(v) == Current(w);
      assert v.toClient[..v.past] == w.toClient[..w.past];
      assert forall m :: Stale(v, m) <==> Stale(w, m);
    }
  }

  lemma ReceiveKeeps(w: World, capacity: nat)
    requires capacity <= 255 && Inv(w, capacity) && CanStep(w, Receive, capacity)
    ensures Inv(Next(w, Receive, capacity), capacity)
  {
    hide Ids, Id;
    var v, n, cur := Next(w, Receive, capacity), w.toClient[0], Current(w);
    var rest := (if w.cut > 0 then [] else Nums(w.queue)) + NumsSent(w.toDevice[w.cut..]);
    ConcatAssociative(w.toClient[w.past..], if w.cut > 0 then [] else Nums(w.queue), NumsSent(w.toDevice[w.cut..]));
    ConcatAssociative(v.toClient[v.past..], if w.cut > 0 then [] else Nums(w.queue), NumsSent(w.toDevice[w.cut..]));
    if w.past > 0 {
      assert w.toClient[1..][w.past - 1..] == w.toClient[w.past..];
      assert Current(v) == cur;
      assert w.toClient[..w.past][0] == n && Stale(w, n);
      forall i | 0 <= i < |cur| ensures Id(cur[i]) != Id(n) {
        NearIdsDiffer(n, cur[i]);
      }
      IdNotIn(cur, n);
      forall m: nat | Stale(v, m) ensures Stale(w, m) {
        if m in v.toClient[..v.past] {
          var i :| 0 <= i < v.past && v.toClient[i] == m;
          assert w.toClient[..w.past][i + 1] == m;
        }
      }
    } else {
      assert w.toClient[0..] == w.toClient && v.toClient[0..] == w.toClient[1..];
      TailOfConcat(w.toClient, rest);
      assert Current(v) == cur[1..] && cur[0] == n;
      IdsOfTail(cur, w.next);
      forall m: nat | Stale(v, m) ensures Stale(w, m) {}
    }
  }

  lemma StepKeeps(w: World, s: Step, capacity: nat)
    requires capacity <= 255 && Inv(w, capacity) && CanStep(w, s, capacity) && Within(w, s, ID_SPACE)
    ensures Inv(Next(w, s, capacity), capacity)
  {
    hide WireOk, Numbered, SinkOk, Conserved, Stale;
    match s
    case Enqueue(holds) => EnqueueKeeps(w, holds, capacity);
    case IssueOne => IssueKeeps(w, capacity);
    case Neutral => NeutralKeeps(w, capacity);
    case Deliver => DeliverKeeps(w, capacity);
    case Elapse(through) => ElapseKeeps(w, through, capacity);
    case Report => ReportKeeps(w, capacity);
    case Receive => ReceiveKeeps(w, capacity);
  }

  // ---- Runs ----

  ghost predicate LegalRun(w: World, run: seq<Step>, capacity: nat)
    decreases |run|
  {
    run != [] ==> CanStep(w, run[0], capacity) && LegalRun(Next(w, run[0], capacity), run[1..], capacity)
  }

  ghost function After(w: World, run: seq<Step>, capacity: nat): World
    requires LegalRun(w, run, capacity)
    decreases |run|
  {
    if run == [] then w else After(Next(w, run[0], capacity), run[1..], capacity)
  }

  /** Every command is sent within the gap. */
  ghost predicate RunWithin(w: World, run: seq<Step>, gap: nat, capacity: nat)
    requires LegalRun(w, run, capacity)
    decreases |run|
  {
    run != [] ==>
      && WireOk(w) && Within(w, run[0], gap)
      && RunWithin(Next(w, run[0], capacity), run[1..], gap, capacity)
  }

  lemma {:induction false} RunKeeps(w: World, run: seq<Step>, gap: nat, capacity: nat)
    requires capacity <= 255 && gap <= ID_SPACE
    requires Inv(w, capacity) && LegalRun(w, run, capacity) && RunWithin(w, run, gap, capacity)
    ensures Inv(After(w, run, capacity), capacity)
    decreases |run|
  {
    hide Inv, CanStep, Next, Within, WireOk;
    if run != [] {
      NarrowerIsWithin(w, run[0], gap);
      StepKeeps(w, run[0], capacity);
      RunKeeps(Next(w, run[0], capacity), run[1..], gap, capacity);
    }
  }

  lemma NarrowerIsWithin(w: World, s: Step, gap: nat)
    requires WireOk(w) && Within(w, s, gap) && gap <= ID_SPACE
    ensures Within(w, s, ID_SPACE)
  {}

  lemma InitialHolds(capacity: nat)
    ensures Inv(INITIAL, capacity)
  {
    assert Current(INITIAL) == [];
    NoIds();
  }

  /** Every hold queued since the last Neutral has elapsed in the sink, where
      they are the newest, in order. */
  predicate AllDone(w: World) {
    && |w.enqueued| <= |w.sink.log|
    && w.sink.log[|w.sink.log| - |w.enqueued|..] == w.enqueued
    && (w.enqueued != [] ==> w.sink.done == |w.sink.log|)
  }

  /** What the client can see; is_idle. */
  predicate Idle(w: World) { NothingOut(ClientOf(w, 0)) }

  lemma IdleMeansDone(w: World, capacity: nat)
    requires capacity <= 255 && Inv(w, capacity) && Idle(w)
    ensures AllDone(w)
  {
    hide Ids, Id, Consecutive, Numbered;
    NoneInFlight(w, capacity);
    if w.cut > 0 {
      assert w.toDevice[w.cut..] == [] by { assert |NumsSent(w.toDevice[w.cut..])| == 0; }
      assert w.enqueued == [];
    } else {
      assert |Nums(w.queue)| == 0 && |NumsSent(w.toDevice[w.cut..])| == 0;
      assert w.toDevice == [] && w.queue == [];
      assert w.enqueued == w.sink.log[w.mark..];
    }
  }

  /** In every run in which no command is sent 256 after one still awaiting its
      reply, an idle client's holds have all elapsed in order, and its commands
      in flight are distinct and at most the device's capacity. */
  lemma IdleIsSound(run: seq<Step>, gap: nat, capacity: nat)
    requires capacity <= 255 && gap <= ID_SPACE
    requires LegalRun(INITIAL, run, capacity) && RunWithin(INITIAL, run, gap, capacity)
    ensures var w := After(INITIAL, run, capacity);
      && (Idle(w) ==> AllDone(w))
      && WireOk(w) && |w.inFlight| == |Current(w)| <= capacity && w.inFlight == Ids(Current(w))
  {
    hide LegalRun, After, RunWithin, AllDone, Current;
    InitialHolds(capacity);
    RunKeeps(INITIAL, run, gap, capacity);
    var w := After(INITIAL, run, capacity);
    IdsOfConsecutive(Current(w), w.next);
    if Idle(w) {
      IdleMeansDone(w, capacity);
    }
  }

  /** Between cancels no condition is needed: without a stale command there is
      never one 256 behind. */
  predicate NothingStale(w: World) { WireOk(w) && w.cut == 0 && w.past == 0 }

  predicate NoNeutral(run: seq<Step>) {
    forall i :: 0 <= i < |run| ==> !run[i].Neutral?
  }

  lemma {:induction false} BetweenCancelsIsUnambiguous(w: World, run: seq<Step>, gap: nat, capacity: nat)
    requires NothingStale(w) && LegalRun(w, run, capacity) && NoNeutral(run)
    ensures RunWithin(w, run, gap, capacity)
    decreases |run|
  {
    if run != [] {
      var v := Next(w, run[0], capacity);
      assert NothingStale(v) by { StaysFresh(w, run[0], capacity); }
      BetweenCancelsIsUnambiguous(v, run[1..], gap, capacity);
    }
  }

  lemma StaysFresh(w: World, s: Step, capacity: nat)
    requires NothingStale(w) && CanStep(w, s, capacity) && !s.Neutral?
    ensures NothingStale(Next(w, s, capacity))
  {}

  /** The holds in the sink, then those on the way, then those still local are
      everything queued, and so are their milliseconds. */
  lemma ConservedBetweenCancels(run: seq<Step>, capacity: nat)
    requires capacity <= 255 && LegalRun(INITIAL, run, capacity) && NoNeutral(run)
    ensures var w := After(INITIAL, run, capacity);
      && w.enqueued == w.sink.log + Holds(w.toDevice) + w.local
      && TotalMs(w.enqueued) == TotalMs(w.sink.log) + TotalMs(Holds(w.toDevice)) + TotalMs(w.local)
      && (Idle(w) ==> w.sink.log == w.enqueued && (w.enqueued != [] ==> w.sink.done == |w.enqueued|))
  {
    hide Inv, LegalRun, After, RunWithin, TotalMs, AllDone;
    InitialHolds(capacity);
    BetweenCancelsIsUnambiguous(INITIAL, run, ID_SPACE, capacity);
    RunKeeps(INITIAL, run, ID_SPACE, capacity);
    var w := After(INITIAL, run, capacity);
    MarkStays(INITIAL, run, capacity);
    FromInv(w, capacity);
    assert w.sink.log[0..] == w.sink.log;
    TotalMsConcat(w.sink.log + Holds(w.toDevice), w.local);
    TotalMsConcat(w.sink.log, Holds(w.toDevice));
    if Idle(w) {
      IdleMeansDone(w, capacity);
      NoneOnTheWay(w, capacity);
      assert w.sink.log + [] + [] == w.sink.log;
    }
  }

  lemma FromInv(w: World, capacity: nat)
    requires Inv(w, capacity)
    ensures WireOk(w) && Conserved(w)
  {}

  lemma NoneOnTheWay(w: World, capacity: nat)
    requires capacity <= 255 && Inv(w, capacity) && Idle(w) && w.cut == 0
    ensures w.toDevice == [] && Holds(w.toDevice) == []
    ensures w.enqueued != [] ==> w.sink.done == |w.sink.log|
  {
    hide Ids, Id, Consecutive, Numbered;
    NoneInFlight(w, capacity);
    IdleMeansDone(w, capacity);
    assert |NumsSent(w.toDevice[w.cut..])| == 0;
  }

  lemma {:induction false} MarkStays(w: World, run: seq<Step>, capacity: nat)
    requires NothingStale(w) && w.mark == 0 && LegalRun(w, run, capacity) && NoNeutral(run)
    ensures NothingStale(After(w, run, capacity)) && After(w, run, capacity).mark == 0
    decreases |run|
  {
    if run != [] {
      StaysFresh(w, run[0], capacity);
      MarkStays(Next(w, run[0], capacity), run[1..], capacity);
    }
  }

  // ---- Beyond the ids ----

  /** At most `most` messages are unread each way, all along. The client's gate on
      unacknowledged packets keeps it from running further ahead of the device. */
  ghost predicate RunReadSoon(w: World, run: seq<Step>, most: nat, capacity: nat)
    requires LegalRun(w, run, capacity)
    decreases |run|
  {
    && |w.toDevice| <= most && |w.toClient| <= most
    && (run != [] ==> RunReadSoon(Next(w, run[0], capacity), run[1..], most, capacity))
  }

  ghost predicate SoundWithin(gap: nat, most: nat, capacity: nat) {
    forall run ::
      LegalRun(INITIAL, run, capacity) && RunWithin(INITIAL, run, gap, capacity)
      && RunReadSoon(INITIAL, run, most, capacity) ==>
        (Idle(After(INITIAL, run, capacity)) ==> AllDone(After(INITIAL, run, capacity)))
  }

  /** An idle client's holds have elapsed in every run exactly when the gap is at
      most the number of ids, even if no more than one message is ever unread
      each way. */
  lemma IdleIsSoundOnlyWithinTheIds(gap: nat, most: nat, capacity: nat)
    requires 1 <= capacity <= 255 && most >= 1
    ensures SoundWithin(gap, most, capacity) <==> gap <= 256
  {
    hide LegalRun, RunWithin, RunReadSoon, After, Idle, AllDone;
    if gap <= ID_SPACE {
      forall run | LegalRun(INITIAL, run, capacity) && RunWithin(INITIAL, run, gap, capacity)
        ensures Idle(After(INITIAL, run, capacity)) ==> AllDone(After(INITIAL, run, capacity))
      {
        IdleIsSound(run, gap, capacity);
      }
    } else {
      var run := StaleReplyIsTakenForANewOne(gap, capacity);
      ReadSooner(INITIAL, run, 1, most, capacity);
    }
  }

  lemma {:induction false} ReadSooner(w: World, run: seq<Step>, most: nat, more: nat, capacity: nat)
    requires LegalRun(w, run, capacity) && RunReadSoon(w, run, most, capacity) && most <= more
    ensures RunReadSoon(w, run, more, capacity)
    decreases |run|
  {
    hide Next, CanStep;
    if run != [] {
      ReadSooner(Next(w, run[0], capacity), run[1..], most, more, capacity);
    }
  }

  const FIRST := Hold(0, 1)
  const LAST := Hold(1, 1)

  /** A legal run within the gap and with at most one message unread each way. */
  ghost predicate Fair(w: World, run: seq<Step>, gap: nat, capacity: nat) {
    LegalRun(w, run, capacity) && RunWithin(w, run, gap, capacity) && RunReadSoon(w, run, 1, capacity)
  }

  lemma PrependFair(w: World, s: Step, run: seq<Step>, gap: nat, capacity: nat)
    requires CanStep(w, s, capacity) && WireOk(w) && (s.IssueOne? ==> w.next < gap)
    requires |w.toDevice| <= 1 && |w.toClient| <= 1
    requires Fair(Next(w, s, capacity), run, gap, capacity)
    ensures Fair(w, [s] + run, gap, capacity)
    ensures After(w, [s] + run, capacity) == After(Next(w, s, capacity), run, capacity)
  {
    hide After, RunWithin, Next, CanStep, WireOk;
    PrependWithin(w, s, run, gap, capacity);
    assert ([s] + run)[1..] == run;
  }

  /** A reply to command 0 is on its way, `m` commands were sent, and all but the
      first cancelled; the device has read everything. */
  predicate Waiting(w: World, m: nat) {
    && w.next == m && w.inFlight == {} && w.local == [] && w.enqueued == []
    && w.toDevice == [] && w.cut == 0 && w.toClient == [0] && w.past == 1
    && w.queue == [] && |w.sink.log| == m && w.sink.done == 1
  }

  /** The same with one command in the device, not yet elapsed. */
  predicate OneHeld(w: World, m: nat) {
    && w.next == m + 1 && w.inFlight == {Id(m)} && w.local == [] && w.enqueued == [LAST]
    && w.toDevice == [] && w.cut == 0 && w.toClient == [0] && w.past == 1
    && |w.sink.log| == m + 1 && w.sink.done == 1
  }

  /** The run that shows it: one hold elapses and its reply is delayed while 255
      commands are each sent, read by the device and cancelled; the next one has
      its id, and is taken for finished when the reply is read at last. */
  lemma StaleReplyIsTakenForANewOne(gap: nat, capacity: nat) returns (run: seq<Step>)
    requires capacity >= 1 && gap > ID_SPACE
    ensures LegalRun(INITIAL, run, capacity) && RunWithin(INITIAL, run, gap, capacity)
    ensures RunReadSoon(INITIAL, run, 1, capacity)
    ensures Idle(After(INITIAL, run, capacity)) && !AllDone(After(INITIAL, run, capacity))
  {
    hide LegalRun, RunWithin, RunReadSoon, After, AllDone, Idle, Next, CanStep, Waiting, WireOk;
    var w1, w2, w3 := FirstIsHeld(capacity);
    var w4, w5, w6, w7 := FirstIsReported(w3, capacity);
    run := SendAndCancel(w7, 1, gap, capacity);
    PrependFair(w6, Deliver, run, gap, capacity);
    run := [Deliver] + run;
    PrependFair(w5, Neutral, run, gap, capacity);
    run := [Neutral] + run;
    PrependFair(w4, Report, run, gap, capacity);
    run := [Report] + run;
    PrependFair(w3, Elapse(1), run, gap, capacity);
    run := [Elapse(1)] + run;
    PrependFair(w2, Deliver, run, gap, capacity);
    run := [Deliver] + run;
    PrependFair(w1, IssueOne, run, gap, capacity);
    run := [IssueOne] + run;
    PrependFair(INITIAL, Enqueue([FIRST]), run, gap, capacity);
    run := [Enqueue([FIRST])] + run;
  }

  /** The wires are in order, and at most one message is unread each way. */
  predicate ReadSoon(w: World) { WireOk(w) && |w.toDevice| <= 1 && |w.toClient| <= 1 }

  lemma FirstIsHeld(capacity: nat) returns (w1: World, w2: World, w3: World)
    requires capacity >= 1
    ensures CanStep(INITIAL, Enqueue([FIRST]), capacity) && w1 == Next(INITIAL, Enqueue([FIRST]), capacity)
    ensures CanStep(w1, IssueOne, capacity) && w2 == Next(w1, IssueOne, capacity) && w1.next == 0
    ensures CanStep(w2, Deliver, capacity) && w3 == Next(w2, Deliver, capacity)
    ensures ReadSoon(INITIAL) && ReadSoon(w1) && ReadSoon(w2) && ReadSoon(w3)
    ensures w3 == World(1, {Id(0)}, [], [], Sink([FIRST], 0, 0), [Task(0, 0)], [], [FIRST], 0, 0, 0)
  {
    w1 := Next(INITIAL, Enqueue([FIRST]), capacity);
    assert w1.local == [FIRST] && w1.enqueued == [FIRST];
    w2 := Next(w1, IssueOne, capacity);
    assert w2.toDevice == [Cmd(0, FIRST)] && w2.local == [] && w2.inFlight == {Id(0)};
    w3 := Next(w2, Deliver, capacity);
    assert w3.toDevice == [] && w3.queue == [Task(0, 0)] && w3.sink == Sink([FIRST], 0, 0);
  }

  lemma FirstIsReported(w: World, capacity: nat) returns (v1: World, v2: World, v3: World, v4: World)
    requires w == World(1, {Id(0)}, [], [], Sink([FIRST], 0, 0), [Task(0, 0)], [], [FIRST], 0, 0, 0)
    ensures CanStep(w, Elapse(1), capacity) && v1 == Next(w, Elapse(1), capacity)
    ensures CanStep(v1, Report, capacity) && v2 == Next(v1, Report, capacity)
    ensures CanStep(v2, Neutral, capacity) && v3 == Next(v2, Neutral, capacity)
    ensures CanStep(v3, Deliver, capacity) && v4 == Next(v3, Deliver, capacity)
    ensures ReadSoon(w) && ReadSoon(v1) && ReadSoon(v2) && ReadSoon(v3) && Waiting(v4, 1)
  {
    v1 := Next(w, Elapse(1), capacity);
    v2 := Next(v1, Report, capacity);
    assert v2.toClient == [0] && v2.queue == [];
    v3 := Next(v2, Neutral, capacity);
    assert v3.toDevice == [CancelAll];
    v4 := Next(v3, Deliver, capacity);
    assert v4.toDevice == [];
  }

  lemma {:induction false} SendAndCancel(w: World, m: nat, gap: nat, capacity: nat) returns (run: seq<Step>)
    requires capacity >= 1 && gap > ID_SPACE && 1 <= m <= ID_SPACE && Waiting(w, m)
    ensures Fair(w, run, gap, capacity)
    ensures Idle(After(w, run, capacity)) && !AllDone(After(w, run, capacity))
    decreases ID_SPACE - m
  {
    hide LegalRun, RunWithin, RunReadSoon, After, AllDone, Idle, Waiting, OneHeld, CanStep, Next, WireOk;
    var w1, w2, w3 := OneMore(w, m, capacity);
    if m < ID_SPACE {
      var v1, v2 := CancelledAgain(w3, m, capacity);
      run := SendAndCancel(v2, m + 1, gap, capacity);
      PrependFair(v1, Deliver, run, gap, capacity);
      run := [Deliver] + run;
      PrependFair(w3, Neutral, run, gap, capacity);
      run := [Neutral] + run;
    } else {
      var v := MistakenForDone(w3, capacity);
      NothingMore(v, gap, capacity);
      PrependFair(w3, Receive, [], gap, capacity);
      run := [Receive] + [];
    }
    PrependFair(w2, Deliver, run, gap, capacity);
    run := [Deliver] + run;
    PrependFair(w1, IssueOne, run, gap, capacity);
    run := [IssueOne] + run;
    PrependFair(w, Enqueue([LAST]), run, gap, capacity);
    run := [Enqueue([LAST])] + run;
  }

  lemma OneMore(w: World, m: nat, capacity: nat) returns (w1: World, w2: World, w3: World)
    requires capacity >= 1 && m <= ID_SPACE && Waiting(w, m)
    ensures CanStep(w, Enqueue([LAST]), capacity) && w1 == Next(w, Enqueue([LAST]), capacity)
    ensures CanStep(w1, IssueOne, capacity) && w2 == Next(w1, IssueOne, capacity) && w1.next == m
    ensures CanStep(w2, Deliver, capacity) && w3 == Next(w2, Deliver, capacity)
    ensures ReadSoon(w) && ReadSoon(w1) && ReadSoon(w2) && ReadSoon(w3) && OneHeld(w3, m)
  {
    hide Id;
    w1 := Next(w, Enqueue([LAST]), capacity);
    assert w1.local == [LAST] && w1.enqueued == [LAST];
    w2 := Next(w1, IssueOne, capacity);
    assert w2.toDevice == [Cmd(m, LAST)] && w2.local == [] && w2.inFlight == {Id(m)};
    w3 := Next(w2, Deliver, capacity);
    assert w3.toDevice == [];
  }

  lemma CancelledAgain(w: World, m: nat, capacity: nat) returns (v1: World, v2: World)
    requires OneHeld(w, m)
    ensures CanStep(w, Neutral, capacity) && v1 == Next(w, Neutral, capacity)
    ensures CanStep(v1, Deliver, capacity) && v2 == Next(v1, Deliver, capacity)
    ensures ReadSoon(v1) && Waiting(v2, m + 1)
  {
    hide Id;
    v1 := Next(w, Neutral, capacity);
    assert v1.toDevice == [CancelAll];
    v2 := Next(v1, Deliver, capacity);
    assert v2.toDevice == [];
  }

  lemma MistakenForDone(w: World, capacity: nat) returns (v: World)
    requires OneHeld(w, ID_SPACE)
    ensures CanStep(w, Receive, capacity) && v == Next(w, Receive, capacity) && ReadSoon(v)
    ensures Idle(v) && !AllDone(v)
  {
    v := Next(w, Receive, capacity);
    assert Id(0) == Id(ID_SPACE);
  }

  lemma NothingMore(w: World, gap: nat, capacity: nat)
    requires ReadSoon(w)
    ensures Fair(w, [], gap, capacity) && After(w, [], capacity) == w
  {
    EmptyRunWithin(w, gap, capacity);
  }

  lemma EmptyRunWithin(w: World, gap: nat, capacity: nat)
    ensures LegalRun(w, [], capacity) && RunWithin(w, [], gap, capacity) && After(w, [], capacity) == w
  {}

  /** A command sent with a number below the gap is within it whatever is stale. */
  lemma PrependWithin(w: World, s: Step, run: seq<Step>, gap: nat, capacity: nat)
    requires CanStep(w, s, capacity) && WireOk(w) && (s.IssueOne? ==> w.next < gap || Within(w, s, gap))
    requires LegalRun(Next(w, s, capacity), run, capacity) && RunWithin(Next(w, s, capacity), run, gap, capacity)
    ensures LegalRun(w, [s] + run, capacity) && RunWithin(w, [s] + run, gap, capacity)
    ensures After(w, [s] + run, capacity) == After(Next(w, s, capacity), run, capacity)
  {
    assert ([s] + run)[1..] == run;
  }

  // ---- Idleness can always be reached ----

  /** What is left to happen to the commands that were sent. */
  function Work(w: World): int {
    4 * |w.toDevice| + 2 * |w.queue| + |w.toClient| + |w.sink.log| - w.sink.done
  }

  predicate Quiet(w: World) { w.toDevice == [] && w.queue == [] && w.toClient == [] }

  /** Until all is sent and finished some step other than a Neutral is within the
      ids and leaves less to do. */
  lemma NextStep(w: World, capacity: nat) returns (s: Step)
    requires 1 <= capacity <= 255 && Inv(w, capacity) && !(Quiet(w) && w.local == [])
    ensures CanStep(w, s, capacity) && !s.Neutral? && Within(w, s, ID_SPACE)
    ensures var v := Next(w, s, capacity);
      v.enqueued == w.enqueued
      && (|v.local| < |w.local| || (v.local == w.local && 0 <= Work(v) < Work(w)))
  {
    hide Ids, Id, Consecutive, Conserved, Numbered;
    if w.toDevice != [] {
      s := Deliver;
    } else if w.queue != [] {
      s := if w.queue[0].sinkId < w.sink.done then Report else Elapse(|w.sink.log|);
    } else if w.toClient != [] {
      s := Receive;
    } else {
      s := IssueOne;
      NothingToAwait(w, capacity);
    }
  }

  lemma NothingToAwait(w: World, capacity: nat)
    requires Inv(w, capacity) && Quiet(w)
    ensures w.inFlight == {} && WireOk(w) && forall n: nat :: !Stale(w, n)
  {
    hide Id, Consecutive, Conserved;
    assert Current(w) == [];
    NoIds();
  }

  lemma QuietIsIdle(w: World, capacity: nat)
    requires Inv(w, capacity) && Quiet(w) && w.local == []
    ensures Idle(w) && WireOk(w)
  {
    NothingToAwait(w, capacity);
  }

  /** From every state a run keeps, letting the wires, the holds and the device
      finish and sending what is local makes the client idle with every hold
      elapsed. */
  lemma {:induction false} IdleCanBeReached(w: World, capacity: nat) returns (run: seq<Step>)
    requires 1 <= capacity <= 255 && Inv(w, capacity)
    ensures LegalRun(w, run, capacity) && RunWithin(w, run, ID_SPACE, capacity) && NoNeutral(run)
    ensures var v := After(w, run, capacity); Idle(v) && AllDone(v) && v.enqueued == w.enqueued
    decreases |w.local|, Work(w)
  {
    hide Inv, LegalRun, RunWithin, After, AllDone, Next, CanStep, Within, Idle, Work;
    if Quiet(w) && w.local == [] {
      QuietIsIdle(w, capacity);
      IdleMeansDone(w, capacity);
      EmptyRunWithin(w, ID_SPACE, capacity);
      run := [];
    } else {
      var s := NextStep(w, capacity);
      StepKeeps(w, s, capacity);
      InvWires(w, capacity);
      var rest := IdleCanBeReached(Next(w, s, capacity), capacity);
      PrependWithin(w, s, rest, ID_SPACE, capacity);
      run := [s] + rest;
    }
  }

  lemma InvWires(w: World, capacity: nat)
    requires Inv(w, capacity)
    ensures WireOk(w)
  {}
}
