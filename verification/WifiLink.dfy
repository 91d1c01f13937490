/** Requests to the WiFi controller across lost links: what is written, on which
    connection, and how often. */
module WifiLink {

  datatype Request = Neutral | Timed | Status

  /** What happened on the link, in order: a connection was reopened, a line
      went out whole, a line was accepted. */
  datatype Line = Opened | Wrote(seqNo: nat, what: Request) | Accepted(seqNo: nat)

  datatype Link = Link(lost: bool, nextSeq: nat, log: seq<Line>)

  /** One try at reopening a lost link, up to the answer to its neutral. */
  datatype Try = OpenFails | NeutralNotSent | NeutralUnanswered | NeutralRefused | NeutralAccepted

  datatype Reply = Accept | Refuse | Unanswered

  /** One round of a request: the tries that restoring the link takes before it
      is up or its time is over, whether the line went out, and the reply. */
  datatype Round = Round(tries: seq<Try>, sent: bool, reply: Reply)

  datatype Outcome = Done(inferred: bool) | Rejected | Unreachable

  // ---- The requests as functions ----

  function Write(l: Link, what: Request, sent: bool): Link {
    if sent then l.(nextSeq := l.nextSeq + 1, log := l.log + [Wrote(l.nextSeq, what)])
    else l.(nextSeq := l.nextSeq + 1, lost := true)
  }

  /** Marks the last request written accepted. */
  function Answer(l: Link): Link
    requires l.nextSeq > 0
  {
    l.(log := l.log + [Accepted(l.nextSeq - 1)])
  }

  /** One try; a neutral that is refused leaves the new link up. */
  function Tried(l: Link, t: Try): Link {
    if t.OpenFails? then l
    else
      var written := Write(l.(lost := false, log := l.log + [Opened]), Neutral, !t.NeutralNotSent?);
      match t
      case NeutralUnanswered => written.(lost := true)
      case NeutralAccepted => Answer(written)
      case _ => written
  }

  /** Restoring the link: until a neutral is accepted, or the time is over. */
  function Restored(l: Link, tries: seq<Try>): (r: (Link, bool))
    decreases |tries|
  {
    if tries == [] then (l, false)
    else if tries[0].NeutralAccepted? then (Tried(l, tries[0]), true)
    else Restored(Tried(l, tries[0]), tries[1..])
  }

  function Ensured(l: Link, tries: seq<Try>): (Link, bool) {
    if l.lost then Restored(l, tries) else (l, true)
  }

  /** A request: sent again only when it never went out, or when it may be. */
  function Requested(l: Link, what: Request, rounds: seq<Round>): (r: (Link, Outcome))
    decreases |rounds|
  {
    if rounds == [] then (l, Unreachable)
    else
      var (up, ok) := Ensured(l, rounds[0].tries);
      if !ok then (up, Unreachable)
      else
        var out := Write(up, what, rounds[0].sent);
        if !rounds[0].sent then Requested(out, what, rounds[1..])
        else
          match rounds[0].reply
          case Accept => (Answer(out), Done(false))
          case Refuse => (out, Rejected)
          case Unanswered =>
            var gone := out.(lost := true);
            if what.Timed? then (gone, Done(true)) else Requested(gone, what, rounds[1..])
  }

  class Client {
    var lost: bool
    var nextSeq: nat
    var log: seq<Line>

    constructor ()
      ensures View() == Link(false, 0, [])
    {
      lost, nextSeq, log := false, 0, [];
    }

    function View(): Link
      reads this
    {
      Link(lost, nextSeq, log)
    }

    method WriteLine(what: Request, sent: bool) returns (ok: bool)
      modifies this
      ensures View() == Write(old(View()), what, sent) && ok == sent
    {
      var seqNo := nextSeq;
      nextSeq := nextSeq + 1;
      if sent {
        log := log + [Wrote(seqNo, what)];
      } else {
        lost := true;
      }
      ok := sent;
    }

    method RequestNeutral(t: Try) returns (ok: bool)
      requires !t.OpenFails?
      modifies this
      ensures var out := Write(old(View()), Neutral, !t.NeutralNotSent?);
        View() == (match t case NeutralUnanswered => out.(lost := true) case NeutralAccepted => Answer(out)
                  case _ => out)
      ensures ok == t.NeutralAccepted?
    {
      ok := WriteLine(Neutral, !t.NeutralNotSent?);
      if !ok {
        return;
      }
      match t {
        case NeutralUnanswered =>
          lost, ok := true, false;
        case NeutralAccepted =>
          log := log + [Accepted(nextSeq - 1)];
        case _ =>
          ok := false;
      }
    }

    /** Restores a lost link, or gives up once the time is over. */
    method EnsureConnected(tries: seq<Try>) returns (ok: bool)
      modifies this
      ensures (View(), ok) == Ensured(old(View()), tries)
    {
      if !lost {
        return true;
      }
      ok := false;
      var i := 0;
      assert tries[0..] == tries;
      while i < |tries| && !ok
        invariant 0 <= i <= |tries|
        invariant Restored(old(View()), tries) == if ok then (View(), true) else Restored(View(), tries[i..])
      {
        var t := tries[i];
        assert tries[i..][0] == t && tries[i..][1..] == tries[i + 1..];
        i := i + 1;
        if !t.OpenFails? {
          lost, log := false, log + [Opened];
          ok := RequestNeutral(t);
        }
      }
    }

    /** `execute` and `status`: both retry what may be repeated. */
    method Send(what: Request, rounds: seq<Round>) returns (outcome: Outcome)
      modifies this
      ensures (View(), outcome) == Requested(old(View()), what, rounds)
    {
      var i := 0;
      assert rounds[0..] == rounds;
      while i < |rounds|
        invariant 0 <= i <= |rounds|
        invariant Requested(old(View()), what, rounds) == Requested(View(), what, rounds[i..])
      {
        var r := rounds[i];
        assert rounds[i..][0] == r && rounds[i..][1..] == rounds[i + 1..];
        i := i + 1;
        var ok := EnsureConnected(r.tries);
        if !ok {
          return Unreachable;
        }
        var sent := WriteLine(what, r.sent);
        if !sent {
          continue;
        }
        match r.reply {
          case Accept =>
            log := log + [Accepted(nextSeq - 1)];
            return Done(false);
          case Refuse =>
            return Rejected;
          case Unanswered =>
            lost := true;
            if what.Timed? {
              return Done(true);
            }
        }
      }
      return Unreachable;
    }
  }

  // ---- At most once ----

  function CountTimed(log: seq<Line>): nat
    decreases |log|
  {
    if log == [] then 0
    else CountTimed(log[..|log| - 1]) + if log[|log| - 1].Wrote? && log[|log| - 1].what.Timed? then 1 else 0
  }

  lemma CountTimedSnoc(log: seq<Line>, x: Line)
    ensures CountTimed(log + [x]) == CountTimed(log) + if x.Wrote? && x.what.Timed? then 1 else 0
  {
    assert (log + [x])[..|log|] == log;
  }

  lemma TriedWritesNoInput(l: Link, t: Try)
    ensures CountTimed(Tried(l, t).log) == CountTimed(l.log)
  {
    hide CountTimed;
    if !t.OpenFails? {
      CountTimedSnoc(l.log, Opened);
      var a := l.log + [Opened];
      CountTimedSnoc(a, Wrote(l.nextSeq, Neutral));
      CountTimedSnoc(a + [Wrote(l.nextSeq, Neutral)], Accepted(l.nextSeq));
    }
  }

  lemma {:induction false} RestoringWritesNoInput(l: Link, tries: seq<Try>)
    ensures CountTimed(Restored(l, tries).0.log) == CountTimed(l.log)
    decreases |tries|
  {
    hide CountTimed, Tried;
    if tries != [] {
      TriedWritesNoInput(l, tries[0]);
      if !tries[0].NeutralAccepted? {
        RestoringWritesNoInput(Tried(l, tries[0]), tries[1..]);
      }
    }
  }

  /** Whatever is lost and however often the link is reopened, a timed input is
      written at most once: exactly once unless the device was unreachable. */
  lemma {:induction false} TimedInputIsWrittenAtMostOnce(l: Link, rounds: seq<Round>)
    ensures var (after, outcome) := Requested(l, Timed, rounds);
      CountTimed(after.log) == CountTimed(l.log) + if outcome.Unreachable? then 0 else 1
    decreases |rounds|
  {
    hide CountTimed, Restored;
    if rounds != [] {
      var r := rounds[0];
      var (up, ok) := Ensured(l, r.tries);
      RestoringWritesNoInput(l, r.tries);
      CountTimedSnoc(up.log, Wrote(up.nextSeq, Timed));
      CountTimedSnoc(up.log + [Wrote(up.nextSeq, Timed)], Accepted(up.nextSeq));
      if ok && !r.sent {
        TimedInputIsWrittenAtMostOnce(Write(up, Timed, false), rounds[1..]);
      }
    }
  }

  // ---- What the outcome tells ----

  predicate EndsIn(log: seq<Line>, lines: seq<Line>) {
    |lines| <= |log| && log[|log| - |lines|..] == lines
  }

  lemma EndsInSnoc(log: seq<Line>, x: Line, y: Line)
    ensures EndsIn(log + [x], [x]) && EndsIn((log + [x]) + [y], [x, y])
  {}

  /** The outcome is told by the round the request ends in: it is done when its
      own line went out and was accepted last, rejected when its line went out
      and was refused, done by inference when a timed line went out and nothing
      came back; no earlier round sent a line that was answered or that may not
      be repeated. */
  lemma {:induction false} OutcomeTellsTheLastRound(l: Link, what: Request, rounds: seq<Round>) returns (j: nat)
    ensures j <= |rounds|
    ensures forall i :: 0 <= i < j ==> rounds[i].sent ==> rounds[i].reply.Unanswered? && !what.Timed?
    ensures var (after, outcome) := Requested(l, what, rounds);
      match outcome
      case Done(inferred) =>
        && j < |rounds| && rounds[j].sent
        && if inferred then
             rounds[j].reply.Unanswered? && what.Timed? && after.lost && after.nextSeq > 0
               && EndsIn(after.log, [Wrote(after.nextSeq - 1, what)])
           else
             rounds[j].reply.Accept? && !after.lost && after.nextSeq > 0
               && EndsIn(after.log, [Wrote(after.nextSeq - 1, what), Accepted(after.nextSeq - 1)])
      case Rejected =>
        && j < |rounds| && rounds[j].sent && rounds[j].reply.Refuse? && !after.lost && after.nextSeq > 0
        && EndsIn(after.log, [Wrote(after.nextSeq - 1, what)])
      case Unreachable => j == |rounds| || forall t :: t in rounds[j].tries ==> !t.NeutralAccepted?
    decreases |rounds|
  {
    hide Restored, EndsIn;
    if rounds == [] {
      j := 0;
    } else {
      var r := rounds[0];
      var (up, ok) := Ensured(l, r.tries);
      RestoredIsUp(l, r.tries);
      if !ok {
        j := 0;
      } else {
        EndsInSnoc(up.log, Wrote(up.nextSeq, what), Accepted(up.nextSeq));
        var out := Write(up, what, r.sent);
        if !r.sent {
          var k := OutcomeTellsTheLastRound(out, what, rounds[1..]);
          j := k + 1;
        } else if r.reply.Unanswered? && !what.Timed? {
          var k := OutcomeTellsTheLastRound(out.(lost := true), what, rounds[1..]);
          j := k + 1;
        } else {
          j := 0;
        }
      }
    }
  }

  /** Restoring succeeds exactly when some neutral is accepted, and leaves the
      link up. */
  lemma {:induction false} RestoredIsUp(l: Link, tries: seq<Try>)
    ensures var (after, ok) := Restored(l, tries);
      && (ok <==> exists t :: t in tries && t.NeutralAccepted?)
      && (ok ==> !after.lost)
    decreases |tries|
  {
    if tries != [] {
      assert tries == [tries[0]] + tries[1..];
      if tries[0].NeutralAccepted? {
        assert tries[0] in tries;
      } else {
        hide Tried;
        RestoredIsUp(Tried(l, tries[0]), tries[1..]);
      }
    }
  }

  // ---- A neutral first ----

  /** How a connection stands: `Ready` once its neutral was accepted, or when it
      is the first; `Broken` when something else went out before. */
  datatype Phase = Ready | Fresh | Waiting(seqNo: nat) | Broken

  function After(p: Phase, x: Line): Phase {
    match x
    case Opened => if p.Broken? then Broken else Fresh
    case Wrote(n, what) =>
      if p.Fresh? && what.Neutral? then Waiting(n) else if p.Ready? then Ready else Broken
    case Accepted(n) => if p == Waiting(n) then Ready else p
  }

  function PhaseOf(log: seq<Line>): Phase
    decreases |log|
  {
    if log == [] then Ready else After(PhaseOf(log[..|log| - 1]), log[|log| - 1])
  }

  lemma PhaseSnoc(log: seq<Line>, x: Line)
    ensures PhaseOf(log + [x]) == After(PhaseOf(log), x)
  {
    assert (log + [x])[..|log|] == log;
  }

  /** No link is used before its neutral was accepted, and one that is up is ready. */
  predicate Clean(l: Link) {
    !PhaseOf(l.log).Broken? && (!l.lost ==> PhaseOf(l.log).Ready?)
  }

  lemma TriedPhase(l: Link, t: Try)
    requires !PhaseOf(l.log).Broken?
    ensures !PhaseOf(Tried(l, t).log).Broken?
    ensures t.NeutralAccepted? ==> Clean(Tried(l, t)) && !Tried(l, t).lost
    ensures t.NeutralRefused? ==> !Tried(l, t).lost && PhaseOf(Tried(l, t).log).Waiting?
    ensures t.NeutralNotSent? || t.NeutralUnanswered? ==> Tried(l, t).lost
    ensures t.OpenFails? ==> Tried(l, t) == l
  {
    hide PhaseOf;
    if !t.OpenFails? {
      PhaseSnoc(l.log, Opened);
      var a := l.log + [Opened];
      PhaseSnoc(a, Wrote(l.nextSeq, Neutral));
      PhaseSnoc(a + [Wrote(l.nextSeq, Neutral)], Accepted(l.nextSeq));
    }
  }

  /** The last connection opened before the time was over had its neutral refused. */
  predicate EndsRefused(tries: seq<Try>)
    decreases |tries|
  {
    tries != [] &&
    var t := tries[|tries| - 1];
    if t.OpenFails? then EndsRefused(tries[..|tries| - 1]) else t.NeutralRefused?
  }

  lemma {:induction false} EndsRefusedTail(tries: seq<Try>)
    requires tries != []
    ensures EndsRefused(tries) <==>
      EndsRefused(tries[1..]) || (tries[0].NeutralRefused? && forall i :: 1 <= i < |tries| ==> tries[i].OpenFails?)
    decreases |tries|
  {
    var k := |tries| - 1;
    if k > 0 && tries[k].OpenFails? {
      EndsRefusedTail(tries[..k]);
      assert tries[1..][..k - 1] == tries[..k][1..];
    } else if k == 0 {
      assert tries[1..] == [];
    }
  }

  lemma {:induction false} AllFail(l: Link, tries: seq<Try>)
    requires forall i :: 0 <= i < |tries| ==> tries[i].OpenFails?
    ensures Restored(l, tries) == (l, false) && !EndsRefused(tries)
    decreases |tries|
  {
    if tries != [] {
      AllFail(l, tries[1..]);
      EndsRefusedTail(tries);
    }
  }

  /** Restoring either ends on an accepted neutral, or gives up: a lost link is
      then still lost, unless the last neutral was refused, which leaves the
      link up and not ready. */
  lemma {:induction false} RestoredPhase(l: Link, tries: seq<Try>)
    requires !PhaseOf(l.log).Broken? && (!l.lost ==> PhaseOf(l.log).Waiting?)
    ensures var (after, ok) := Restored(l, tries);
      && !PhaseOf(after.log).Broken?
      && (ok ==> !after.lost && PhaseOf(after.log).Ready?)
      && (!ok && !after.lost ==> PhaseOf(after.log).Waiting?)
      && (!ok && l.lost ==> (after.lost <==> !EndsRefused(tries)))
      && (!ok && !l.lost ==> (after.lost <==>
            !EndsRefused(tries) && exists i :: 0 <= i < |tries| && !tries[i].OpenFails?))
    decreases |tries|
  {
    hide PhaseOf, Tried, EndsRefused;
    if tries == [] {
      AllFail(l, []);
    } else {
      TriedPhase(l, tries[0]);
      EndsRefusedTail(tries);
      if !tries[0].NeutralAccepted? {
        RestoredPhase(Tried(l, tries[0]), tries[1..]);
      }
    }
  }

  /** The tries of the round a request gave up in; none when it did not. */
  function GaveUpAfter(l: Link, what: Request, rounds: seq<Round>): seq<Try>
    decreases |rounds|
  {
    if rounds == [] then []
    else
      var (up, ok) := Ensured(l, rounds[0].tries);
      if !ok then rounds[0].tries
      else
        var out := Write(up, what, rounds[0].sent);
        if !rounds[0].sent then GaveUpAfter(out, what, rounds[1..])
        else if rounds[0].reply.Unanswered? && !what.Timed? then GaveUpAfter(out.(lost := true), what, rounds[1..])
        else []
  }

  lemma WritePhase(l: Link, what: Request, sent: bool)
    requires Clean(l) && !l.lost
    ensures var out := Write(l, what, sent);
      && Clean(out) && Clean(out.(lost := true)) && out.nextSeq > 0
      && (sent ==> out.lost == false && Clean(Answer(out)))
  {
    hide PhaseOf;
    PhaseSnoc(l.log, Wrote(l.nextSeq, what));
    PhaseSnoc(l.log + [Wrote(l.nextSeq, what)], Accepted(l.nextSeq));
  }

  /** A request leaves the link clean exactly when it did not give up on a
      refused neutral. */
  lemma {:induction false} RequestKeepsClean(l: Link, what: Request, rounds: seq<Round>)
    requires Clean(l)
    ensures var after := Requested(l, what, rounds).0;
      && !PhaseOf(after.log).Broken?
      && (Clean(after) <==> !EndsRefused(GaveUpAfter(l, what, rounds)))
    decreases |rounds|
  {
    hide PhaseOf, Restored, EndsRefused, Write, Clean;
    CleanIs(l);
    if rounds == [] {
      AllFail(l, []);
    } else {
      var r := rounds[0];
      RestoredPhase(l.(lost := true), r.tries);
      var (up, ok) := Ensured(l, r.tries);
      assert l.lost ==> l.(lost := true) == l;
      CleanIs(up);
      if ok {
        WritePhase(up, what, r.sent);
        AllFail(l, []);
        var out := Write(up, what, r.sent);
        if !r.sent {
          RequestKeepsClean(out, what, rounds[1..]);
        } else if r.reply.Unanswered? && !what.Timed? {
          RequestKeepsClean(out.(lost := true), what, rounds[1..]);
        } else {
          CleanIs(Requested(l, what, rounds).0);
        }
      }
    }
  }

  lemma CleanIs(l: Link)
    ensures Clean(l) <==> !PhaseOf(l.log).Broken? && (!l.lost ==> PhaseOf(l.log).Ready?)
  {}

  // ---- Whole sessions ----

  datatype Op = Drop | Ask(what: Request, rounds: seq<Round>)

  function AfterOp(l: Link, op: Op): Link {
    match op
    case Drop => l.(lost := true)
    case Ask(what, rounds) => Requested(l, what, rounds).0
  }

  function Session(l: Link, ops: seq<Op>): Link
    decreases |ops|
  {
    if ops == [] then l else Session(AfterOp(l, ops[0]), ops[1..])
  }

  predicate NeverGaveUpRefused(l: Link, ops: seq<Op>)
    decreases |ops|
  {
    ops != [] ==>
      && (ops[0].Ask? ==> !EndsRefused(GaveUpAfter(l, ops[0].what, ops[0].rounds)))
      && NeverGaveUpRefused(AfterOp(l, ops[0]), ops[1..])
  }

  /** In every session in which no request gives up on a refused neutral, an
      accepted neutral comes before anything else on every reopened link. */
  lemma {:induction false} NeutralComesFirst(l: Link, ops: seq<Op>)
    requires Clean(l) && NeverGaveUpRefused(l, ops)
    ensures Clean(Session(l, ops))
    decreases |ops|
  {
    hide PhaseOf, EndsRefused, Requested;
    if ops != [] {
      match ops[0] {
        case Drop =>
        case Ask(what, rounds) => RequestKeepsClean(l, what, rounds);
      }
      NeutralComesFirst(AfterOp(l, ops[0]), ops[1..]);
    }
  }

  /** And only then: after a request that gave up on a refused neutral, the next
      input goes out on a link that was never neutralised. */
  lemma RefusedNeutralIsForgotten(l: Link, what: Request, rounds: seq<Round>, reply: Reply)
    requires Clean(l) && EndsRefused(GaveUpAfter(l, what, rounds))
    ensures PhaseOf(Session(l, [Ask(what, rounds), Ask(Timed, [Round([], true, reply)])]).log).Broken?
  {
    hide PhaseOf, EndsRefused, GaveUpAfter;
    RequestKeepsClean(l, what, rounds);
    var up := Requested(l, what, rounds).0;
    var next := [Round([], true, reply)];
    var out := Write(up, Timed, true);
    PhaseSnoc(up.log, Wrote(up.nextSeq, Timed));
    PhaseSnoc(out.log, Accepted(up.nextSeq));
    NotCleanIsUp(up);
    assert Requested(up, Timed, next).0 in {Answer(out), out, out.(lost := true)};
    var ops := [Ask(what, rounds), Ask(Timed, next)];
    assert ops[1..] == [Ask(Timed, next)] && ops[1..][1..] == [];
    assert Session(up, ops[1..]) == Session(AfterOp(up, Ask(Timed, next)), []);
  }

  lemma NotCleanIsUp(l: Link)
    requires !Clean(l) && !PhaseOf(l.log).Broken?
    ensures !l.lost && !PhaseOf(l.log).Ready?
  {}
}
