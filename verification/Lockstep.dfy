/** One emulator's half of a link session: it reports every frame it finishes and
    starts none while it is ahead of what its peer reported. */
module Lockstep {
  import opened Bytes
  import opened Wrappers

  const LOCKSTEP_SLACK: nat := 0
  const MAX_COUNT: nat := 0xFFFF_FFFF

  /** What the port tells the emulator. Connections are numbered to tell them
      apart in proofs; nothing looks at the number. */
  datatype Event = Connected(conn: nat) | Packet(payload: seq<byte>) | PeerFrames(frames: u32) | Disconnected

  datatype Session = Session(started: bool, connected: bool, frames: u32, peerFrames: u32, stalledAt: Option<u32>)

  function SaturatingAdd(a: nat, b: nat): u32 {
    if a + b > MAX_COUNT then MAX_COUNT else a + b
  }

  /** What an event does to the session; `accepted` is the core's answer to a
      player joining its host. */
  function Dispatched(s: Session, e: Event, host: bool, accepted: bool): Session {
    match e
    case Connected(_) => Session(s.started || !host, !host || accepted, 0, 0, None)
    case Packet(_) => s
    case PeerFrames(n) => s.(peerFrames := n)
    case Disconnected => s.(connected := false, started := s.started && host)
  }

  predicate Behind(s: Session) {
    s.connected && SaturatingAdd(s.peerFrames, LOCKSTEP_SLACK) < s.frames && s.stalledAt != Some(s.peerFrames)
  }

  /** The events taken in order; `accepts` is the core's answer to the player of
      each connection. */
  function DispatchedAll(s: Session, events: seq<Event>, host: bool, accepts: nat -> bool): Session
    decreases |events|
  {
    if events == [] then s
    else
      var e := events[|events| - 1];
      Dispatched(DispatchedAll(s, events[..|events| - 1], host, accepts), e, host, e.Connected? && accepts(e.conn))
  }

  /** The emulator's half of the session. `arrived` is the port's queue and
      `later` what reaches it before the waiting times out. */
  class HostSession {
    const host: bool
    var session: Session
    var arrived: seq<Event>
    var later: seq<Event>
    ghost var taken: seq<Event>
    ghost var origin: Session
    const accepts: nat -> bool

    ghost predicate Valid()
      reads this
    {
      session == DispatchedAll(origin, taken, host, accepts)
    }

    constructor (host: bool, accepts: nat -> bool, session: Session, arrived: seq<Event>, later: seq<Event>)
      ensures Valid() && this.session == session && this.arrived == arrived && this.later == later
      ensures this.host == host && this.accepts == accepts && taken == []
    {
      this.host, this.accepts := host, accepts;
      this.session, this.arrived, this.later := session, arrived, later;
      taken, origin := [], session;
    }

    method Dispatch(e: Event)
      requires Valid()
      modifies this`session, this`taken
      ensures Valid() && taken == old(taken) + [e]
      ensures session == Dispatched(old(session), e, host, e.Connected? && accepts(e.conn))
    {
      match e {
      case Connected(conn) =>
        session := Session(session.started, true, 0, 0, None);
        if !host {
          session := session.(started := true);
        } else if !accepts(conn) {
          session := session.(connected := false);
        }
      case Packet(_) =>
      case PeerFrames(n) => session := session.(peerFrames := n);
      case Disconnected => session := session.(connected := false, started := if host then session.started else false);
      }
      taken := taken + [e];
      assert taken[..|taken| - 1] == old(taken);
    }

    /** Takes what has arrived, in order, without waiting: before a frame, and in
        the middle of one whenever the core polls. */
    method Drain()
      requires Valid()
      modifies this
      ensures Valid() && origin == old(origin) && later == old(later)
      ensures taken == old(taken) + old(arrived) && arrived == []
    {
      while arrived != []
        invariant Valid() && origin == old(origin) && later == old(later)
        invariant taken + arrived == old(taken) + old(arrived)
        decreases |arrived|
      {
        var e := arrived[0];
        arrived := arrived[1..];
        Dispatch(e);
      }
    }

    /** Takes what has arrived, then waits while ahead: it returns ready to run a
        frame, having taken events in order, and gives up on its peer only when
        none came in time. */
    method LinkBeforeFrame()
      requires Valid() && taken == []
      modifies this
      ensures !Behind(session) && origin == old(origin)
      ensures taken + arrived + later == old(arrived) + old(later) && arrived == []
      ensures session == DispatchedAll(origin, taken, host, accepts)
           || (later == []
               && session == DispatchedAll(origin, taken, host, accepts).(stalledAt := Some(session.peerFrames))
               && Behind(DispatchedAll(origin, taken, host, accepts)))
    {
      Drain();
      while Behind(session)
        invariant Valid() && origin == old(origin) && arrived == []
        invariant taken + later == old(arrived) + old(later)
        decreases |later|
      {
        if later == [] {
          session := session.(stalledAt := Some(session.peerFrames));
          break;
        }
        var e := later[0];
        later := later[1..];
        Dispatch(e);
      }
    }

    /** Counts the frame and returns the count to report. */
    method LinkAfterFrame() returns (report: Option<u32>)
      modifies this`session
      ensures session == Finished(old(session))
      ensures report == if old(session).connected then Some(session.frames) else None
    {
      if session.connected {
        session := session.(frames := SaturatingAdd(session.frames, 1));
        return Some(session.frames);
      }
      return None;
    }
  }

  function Finished(s: Session): Session {
    if s.connected then s.(frames := SaturatingAdd(s.frames, 1)) else s
  }
}
