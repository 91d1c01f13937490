/** When accepted commands count as finished: the device's word, or the end of
    the queue and a grace. Times are milliseconds on one clock. */
module WifiFinish {
  import opened Wrappers

  const FINISH_GRACE: nat := 2000

  /** A command accepted since the last neutral. */
  datatype Played = Played(id: nat, input: nat, at: nat)

  /** When a queue has played out: each command starts when it was accepted, or
      behind the ones before it. */
  function PlayEnd(queue: seq<Played>): nat
    requires queue != []
    decreases |queue|
  {
    var k := |queue| - 1;
    if k == 0 then queue[0].at + queue[0].input
    else (if PlayEnd(queue[..k]) > queue[k].at then PlayEnd(queue[..k]) else queue[k].at) + queue[k].input
  }

  lemma PlayEndSnoc(queue: seq<Played>, p: Played)
    ensures PlayEnd(queue + [p])
         == (if queue != [] && PlayEnd(queue) > p.at then PlayEnd(queue) else p.at) + p.input
  {
    assert (queue + [p])[..|queue|] == queue;
  }

  predicate InTime(queue: seq<Played>) {
    forall i, j :: 0 <= i < j < |queue| ==> queue[i].at <= queue[j].at
  }

  /** The milliseconds a device that plays without a pause has left to play at
      `now`, when all of the queue had been accepted. */
  function Backlog(queue: seq<Played>, now: nat): nat
    decreases |queue|
  {
    if queue == [] then 0
    else
      var p := queue[|queue| - 1];
      var left := Backlog(queue[..|queue| - 1], p.at) + p.input;
      if p.at + left <= now then 0 else if now < p.at then left else p.at + left - now
  }

  /** The queue has played out just when such a device has nothing left. */
  lemma {:induction false} PlayEndIsWhenNothingIsLeft(queue: seq<Played>, now: nat)
    requires queue != [] && InTime(queue) && queue[|queue| - 1].at <= now
    ensures Backlog(queue, now) == if PlayEnd(queue) <= now then 0 else PlayEnd(queue) - now
    decreases |queue|
  {
    var k := |queue| - 1;
    if k > 0 {
      assert InTime(queue[..k]);
      PlayEndIsWhenNothingIsLeft(queue[..k], queue[k].at);
    }
  }

  /** A queue never ends earlier for what is added. */
  lemma {:induction false} PlayEndGrows(queue: seq<Played>, k: nat)
    requires 0 < k <= |queue|
    ensures PlayEnd(queue[..k]) <= PlayEnd(queue)
    decreases |queue|
  {
    var n := |queue| - 1;
    if k <= n {
      assert queue[..n][..k] == queue[..k];
      PlayEndGrows(queue[..n], k);
    } else {
      assert queue[..k] == queue;
    }
  }

  /** One deadline against what was accepted: a command is due a grace after it
      has played, a neutral a grace after it was accepted. */
  ghost predicate Due(id: nat, deadline: nat, queue: seq<Played>, neutral: Option<Played>) {
    || (neutral.Some? && id == neutral.value.id && deadline == neutral.value.at + FINISH_GRACE)
    || exists k :: 0 <= k < |queue| && queue[k].id == id && deadline == PlayEnd(queue[..k + 1]) + FINISH_GRACE
  }

  /** The book against what was accepted: the queue ends when it has played. */
  ghost predicate Booked(outstanding: map<nat, nat>, queueEnd: Option<nat>, queue: seq<Played>,
      neutral: Option<Played>) {
    && queueEnd == (if queue == [] then None else Some(PlayEnd(queue)))
    && (forall id :: id in outstanding ==> Due(id, outstanding[id], queue, neutral))
  }

  ghost function LastEnd(queue: seq<Played>, neutral: Option<Played>): nat {
    var n := if neutral.Some? then neutral.value.at else 0;
    if queue != [] && PlayEnd(queue) > n then PlayEnd(queue) else n
  }

  lemma NothingIsDueLater(id: nat, deadline: nat, queue: seq<Played>, neutral: Option<Played>)
    requires Due(id, deadline, queue, neutral)
    ensures deadline <= LastEnd(queue, neutral) + FINISH_GRACE
  {
    if k :| 0 <= k < |queue| && queue[k].id == id && deadline == PlayEnd(queue[..k + 1]) + FINISH_GRACE {
      PlayEndGrows(queue, k + 1);
    }
  }

  lemma DueStays(id: nat, deadline: nat, queue: seq<Played>, neutral: Option<Played>, p: Played)
    requires Due(id, deadline, queue, neutral)
    ensures Due(id, deadline, queue + [p], neutral)
  {
    if k :| 0 <= k < |queue| && queue[k].id == id && deadline == PlayEnd(queue[..k + 1]) + FINISH_GRACE {
      assert (queue + [p])[..k + 1] == queue[..k + 1];
    }
  }

  lemma LastIsDue(queue: seq<Played>, neutral: Option<Played>)
    requires queue != []
    ensures Due(queue[|queue| - 1].id, PlayEnd(queue) + FINISH_GRACE, queue, neutral)
  {
    assert queue[..|queue| - 1 + 1] == queue;
  }

  /** What has been due since before `now`: the play ended a grace ago. */
  ghost predicate Over(id: nat, now: nat, queue: seq<Played>, neutral: Option<Played>) {
    || (neutral.Some? && id == neutral.value.id && neutral.value.at + 2000 <= now)
    || exists k :: 0 <= k < |queue| && queue[k].id == id && PlayEnd(queue[..k + 1]) + 2000 <= now
  }

  lemma DueIsOver(id: nat, deadline: nat, now: nat, queue: seq<Played>, neutral: Option<Played>)
    requires Due(id, deadline, queue, neutral) && deadline <= now
    ensures Over(id, now, queue, neutral)
  {}

  /** What is_idle answers: whether all is finished, or that the device has been
      out of reach too long. */
  datatype Answer = Idle(idle: bool) | Unreachable

  /** How long the link has been down, none for a clock that is behind. */
  function DownFor(since: nat, now: nat): nat { if now > since then now - since else 0 }

  /** Since the link went down the device has said nothing. */
  predicate SilentSince(downSince: Option<nat>, heard: Option<nat>) {
    downSince.Some? && heard.Some? ==> heard.value <= downSince.value
  }

  class Bookings {
    const limit: nat
    var outstanding: map<nat, nat>
    var queueEnd: Option<nat>
    var inferred: nat
    var failed: bool
    var downSince: Option<nat>
    ghost var queue: seq<Played>
    ghost var neutral: Option<Played>
    // When the device last said something.
    ghost var heard: Option<nat>

    ghost predicate Valid()
      reads this
    {
      Booked(outstanding, queueEnd, queue, neutral) && SilentSince(downSince, heard)
    }

    /** When everything accepted has played, and a neutral been released. */
    ghost function Horizon(): nat
      reads this
    {
      LastEnd(queue, neutral)
    }

    /** A new connection takes over since when the last one has been down. */
    constructor (limit: nat, downSince: Option<nat>, ghost heard: Option<nat>)
      requires SilentSince(downSince, heard)
      ensures Valid() && outstanding == map[] && queue == [] && neutral == None && inferred == 0
      ensures this.limit == limit && !failed && this.downSince == downSince && this.heard == heard
    {
      this.limit := limit;
      outstanding, queueEnd, inferred := map[], None, 0;
      failed, this.downSince := false, downSince;
      queue, neutral, this.heard := [], None, heard;
    }

    /** The connection breaks: down since its first failure after the device was
        last heard. */
    method Fail(now: nat)
      requires Valid() && (heard.Some? ==> heard.value <= now)
      modifies this`failed, this`downSince
      ensures Valid() && failed
      ensures downSince == if old(downSince).Some? then old(downSince) else Some(now)
    {
      failed := true;
      if downSince.None? {
        downSince := Some(now);
      }
    }

    /** Anything the device says means the link is alive; an error it reports
        fails the connection all the same. */
    method Hear(now: nat, error: bool)
      requires Valid()
      modifies this`failed, this`downSince, this`heard
      ensures Valid() && downSince == None && heard == Some(now) && failed == (old(failed) || error)
    {
      downSince, heard := None, Some(now);
      failed := failed || error;
    }

    /** An accepted command, booked behind what is queued. */
    method Book(id: nat, input: nat, now: nat)
      requires Valid()
      modifies this`outstanding, this`queueEnd, this`queue
      ensures Valid() && queue == old(queue) + [Played(id, input, now)]
      ensures outstanding == old(outstanding)[id := PlayEnd(queue) + 2000]
    {
      hide PlayEnd, Due;
      var start := if queueEnd.Some? && queueEnd.value > now then queueEnd.value else now;
      var end := start + input;
      queueEnd := Some(end);
      outstanding := outstanding[id := end + FINISH_GRACE];
      ghost var was := queue;
      queue := queue + [Played(id, input, now)];
      PlayEndSnoc(was, Played(id, input, now));
      LastIsDue(queue, neutral);
      forall i | i in outstanding && i != id ensures Due(i, outstanding[i], queue, neutral) {
        DueStays(i, outstanding[i], was, neutral, Played(id, input, now));
      }
    }

    /** A neutral accepted drops the queue; it is itself due at once. */
    method AcceptedNeutral(id: nat, now: nat)
      requires Valid()
      modifies this`outstanding, this`queueEnd, this`queue, this`neutral
      ensures Valid() && queue == [] && neutral == Some(Played(id, 0, now))
      ensures outstanding == if id in old(outstanding) then map[id := now + 2000] else map[]
    {
      var pending := id in outstanding;
      outstanding := map[];
      queueEnd := None;
      if pending {
        outstanding := outstanding[id := now + FINISH_GRACE];
      }
      queue, neutral := [], Some(Played(id, 0, now));
    }

    method OnFinished(id: nat)
      requires Valid()
      modifies this`outstanding
      ensures Valid() && outstanding == old(outstanding) - {id}
    {
      outstanding := outstanding - {id};
    }

    /** Infers exactly the finishes that are due: each command's play has ended
        a grace ago. Fails exactly when the connection broke and has been down
        for the limit, in which nothing was heard; else a caller that waits out
        everything accepted and the grace is told the client is idle. */
    method IsIdle(now: nat) returns (answer: Answer)
      requires Valid()
      modifies this`outstanding, this`inferred
      ensures Valid()
      ensures outstanding == map id | id in old(outstanding) && old(outstanding)[id] > now :: old(outstanding)[id]
      ensures forall id :: id in old(outstanding) && id !in outstanding ==> Over(id, now, queue, neutral)
      ensures inferred + |outstanding.Keys| == old(inferred) + |old(outstanding).Keys|
      ensures answer.Unreachable? <==> failed && downSince.Some? && (limit == 0 || downSince.value + limit <= now)
      ensures answer.Unreachable? && limit > 0 && heard.Some? ==> heard.value + limit <= now
      ensures answer.Idle? ==> (answer.idle <==> outstanding == map[])
      ensures answer.Idle? && Horizon() + 2000 <= now ==> answer.idle
    {
      hide Due, LastEnd;
      if Horizon() + FINISH_GRACE <= now {
        forall id | id in outstanding ensures outstanding[id] <= now {
          NothingIsDueLater(id, outstanding[id], queue, neutral);
        }
      }
      ghost var was := outstanding;
      InferDue(now);
      forall id | id in was && id !in outstanding ensures Over(id, now, queue, neutral) {
        DueIsOver(id, was[id], now, queue, neutral);
      }
      if failed && downSince.Some? && DownFor(downSince.value, now) >= limit {
        return Unreachable;
      }
      answer := Idle(outstanding == map[]);
    }

    method InferDue(now: nat)
      modifies this`outstanding, this`inferred
      ensures outstanding == map id | id in old(outstanding) && old(outstanding)[id] > now :: old(outstanding)[id]
      ensures inferred + |outstanding.Keys| == old(inferred) + |old(outstanding).Keys|
    {
      var due := set id | id in outstanding && outstanding[id] <= now;
      while due != {}
        invariant outstanding.Keys <= old(outstanding).Keys
        invariant forall id :: id in outstanding ==> outstanding[id] == old(outstanding)[id]
        invariant forall id :: id in old(outstanding) && old(outstanding)[id] > now ==> id in outstanding
        invariant due == set id | id in outstanding && outstanding[id] <= now
        invariant inferred + |outstanding.Keys| == old(inferred) + |old(outstanding).Keys|
        decreases |due|
      {
        var id :| id in due;
        ghost var keys := outstanding.Keys;
        due := due - {id};
        outstanding := outstanding - {id};
        assert outstanding.Keys == keys - {id};
        inferred := inferred + 1;
      }
      forall id | id in outstanding ensures old(outstanding)[id] > now {
        assert id !in due;
      }
    }
  }
}
