/** One emulator's half of a link session by itself, over any number of events,
    answers, frames and stalls: when it is connected, what it has counted and
    what holds it. */
module LockstepSides {
  import opened Lockstep
  import opened Wrappers

  datatype Doing =
    | Takes(e: Event, accepts: bool)   // takes an event, the core answering so
    | Finishes                         // finishes a frame
    | GivesUp                          // stops waiting for the peer it is ahead of

  function Done(s: Session, d: Doing, host: bool): Session {
    match d
    case Takes(e, accepts) => Dispatched(s, e, host, accepts)
    case Finishes => Finished(s)
    case GivesUp => if Behind(s) then s.(stalledAt := Some(s.peerFrames)) else s
  }

  function DoneAll(s: Session, doings: seq<Doing>, host: bool): Session
    decreases |doings|
  {
    if doings == [] then s
    else Done(DoneAll(s, doings[..|doings| - 1], host), doings[|doings| - 1], host)
  }

  /** Before any connection: a host's core has started its session already. */
  function Before(host: bool): Session { Session(host, false, 0, 0, None) }

  predicate Comes(d: Doing) { d.Takes? && d.e.Connected? }

  predicate Goes(d: Doing) { d.Takes? && d.e.Disconnected? }

  /** The connection comes up at `i`, a guest's always and a host's if its core
      accepts, and neither goes nor comes again. */
  predicate UpSince(doings: seq<Doing>, host: bool, i: nat) {
    && i < |doings| && Comes(doings[i]) && (host ==> doings[i].accepts)
    && forall j :: i < j < |doings| ==> !Comes(doings[j]) && !Goes(doings[j])
  }

  /** Frames finished from `i` on. */
  function FramesSince(doings: seq<Doing>, i: nat): nat
    requires i <= |doings|
    decreases |doings| - i
  {
    if i == |doings| then 0 else (if doings[i].Finishes? then 1 else 0) + FramesSince(doings, i + 1)
  }

  lemma {:induction false} FramesSnoc(doings: seq<Doing>, d: Doing, i: nat)
    requires i <= |doings|
    ensures FramesSince(doings + [d], i) == FramesSince(doings, i) + if d.Finishes? then 1 else 0
    decreases |doings| - i
  {
    if i < |doings| {
      FramesSnoc(doings, d, i + 1);
    } else {
      assert FramesSince(doings + [d], i + 1) == 0;
    }
  }

  /** A side is connected exactly while a connection that came up lasts; a host's
      came up only if its core accepted, and a guest's core runs a session exactly
      then, a host's always. */
  lemma {:induction false} ConnectedIffUp(doings: seq<Doing>, host: bool)
    ensures var s := DoneAll(Before(host), doings, host);
      && (s.connected <==> exists i :: UpSince(doings, host, i))
      && s.started == (host || s.connected)
    decreases |doings|
  {
    if doings != [] {
      var k := |doings| - 1;
      ConnectedIffUp(doings[..k], host);
      LastDoing(doings, host);
    }
  }

  lemma LastDoing(doings: seq<Doing>, host: bool)
    requires doings != []
    ensures var k, d := |doings| - 1, doings[|doings| - 1];
      (exists i :: UpSince(doings, host, i)) <==>
      if Comes(d) then !host || d.accepts else !Goes(d) && exists i :: UpSince(doings[..k], host, i)
  {
    var k, d := |doings| - 1, doings[|doings| - 1];
    if Comes(d) && (!host || d.accepts) {
      assert UpSince(doings, host, k);
    }
    if !Comes(d) && !Goes(d) && exists i :: UpSince(doings[..k], host, i) {
      var i: nat :| UpSince(doings[..k], host, i);
      assert UpSince(doings, host, i);
    }
    if exists i :: UpSince(doings, host, i) {
      var i: nat :| UpSince(doings, host, i);
      if i < k {
        assert UpSince(doings[..k], host, i);
      }
    }
  }

  /** Since then it has counted its frames, as far as the count goes, and knows
      the peer's last report, none having come being none finished. */
  lemma {:induction false} CountsSinceUp(doings: seq<Doing>, host: bool, i: nat)
    requires UpSince(doings, host, i)
    ensures var s, n := DoneAll(Before(host), doings, host), FramesSince(doings, i);
      && s.connected
      && s.frames == (if n < 0xFFFF_FFFF then n else 0xFFFF_FFFF)
      && s.peerFrames == LastReport(doings, i)
    decreases |doings|
  {
    var k := |doings| - 1;
    assert doings == doings[..k] + [doings[k]];
    FramesSnoc(doings[..k], doings[k], if i < k then i else k);
    if i < k {
      assert UpSince(doings[..k], host, i);
      CountsSinceUp(doings[..k], host, i);
    } else {
      ReportSnoc(doings, i);
    }
  }

  /** The last count reported after `i`, or 0. */
  function LastReport(doings: seq<Doing>, i: nat): nat
    decreases |doings|
  {
    if |doings| <= i + 1 then 0
    else
      match doings[|doings| - 1]
      case Takes(PeerFrames(n), _) => n
      case _ => LastReport(doings[..|doings| - 1], i)
  }

  lemma ReportSnoc(doings: seq<Doing>, i: nat)
    requires |doings| == i + 1
    ensures LastReport(doings, i) == 0
  {}

  predicate Unstalled(d: Doing) { !d.GivesUp? && !Comes(d) }

  /** Giving up lets it run freely, any number of frames, until it hears a count
      other than the one it gave up at; then it is held again. */
  lemma {:induction false} StalledUntilTheCountMoves(s: Session, rest: seq<Doing>, host: bool)
    requires Behind(s) && forall i :: 0 <= i < |rest| ==> Unstalled(rest[i])
    ensures var t := DoneAll(Done(s, GivesUp, host), rest, host);
      && t.stalledAt == Some(s.peerFrames)
      && (Behind(t) <==> t.connected && t.peerFrames < t.frames && t.peerFrames != s.peerFrames)
    decreases |rest|
  {
    if rest != [] {
      StalledUntilTheCountMoves(s, rest[..|rest| - 1], host);
    }
  }

  /** One that has not given up in its connection is held exactly while it is
      ahead of what it has heard. */
  lemma {:induction false} HeldWhileAhead(s: Session, rest: seq<Doing>, host: bool, conn: nat, accepts: bool)
    requires forall i :: 0 <= i < |rest| ==> !rest[i].GivesUp?
    ensures var t := DoneAll(Dispatched(s, Connected(conn), host, accepts), rest, host);
      t.stalledAt == None && (Behind(t) <==> t.connected && t.peerFrames < t.frames)
    decreases |rest|
  {
    if rest != [] {
      HeldWhileAhead(s, rest[..|rest| - 1], host, conn, accepts);
    }
  }
}
