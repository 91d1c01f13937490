/** What the solver's numbers are: the chances of the single plays of an attempt.
    A play is one course of luck, draw by draw, and every draw's chance is
    written out here, apart from the solver's recursion. */
module CatchPlays {
  import opened CatchOdds
  import opened Seqs

  // ---- Single plays ----

  datatype End = Caught | FoeFainted | LeadFainted | Stopped

  /** Where an attempt stands: our turn; the foe's, with what will be left after
      it; or over. */
  datatype Stand = Ours(turn: nat, seen: seq<Node>) | Foes(turn: nat, seen: seq<Node>, left: Node) | Over(end: End)

  /** One thing luck may decide: its chance, the balls it costs, what comes of it. */
  datatype Draw = Draw(chance: real, thrown: nat, next: Stand)

  type Play = seq<Draw>

  /** The turns an attempt lasts at most. */
  const TURNS: nat := 20

  /** A ball's catch chance is taken at ten tenths for a foe awake, fifteen for
      one paralysed, twenty for one asleep. */
  function Tenths(s: State): nat {
    if s.Awake? then 10 else if s.Paralyzed? then 15 else 20
  }

  /** The status a turn later: a sleep wears off, one action each turn. */
  function Later(s: State): State {
    if s.Asleep? && s.n >= 2 then Asleep(s.n - 1) else if s.Paralyzed? then Paralyzed else Awake
  }

  /** The lead faints in the foe's turn with that turn's hazard, for certain when
      the hazards have run out. */
  function FaintChance(g: Game, turn: nat): real {
    if turn >= |g.hazard| then 1.0 else g.hazard[turn]
  }

  const STOP: seq<Draw> := [Draw(1.0, 0, Over(Stopped))]

  /** What our action may come to. A ball catches or not; a status move misses
      or lands, a sleep lasting one to four more of our actions alike; an attack
      does one of its damages. */
  function ActionDraws(g: Game, e: Effect, turn: nat, seen: seq<Node>): seq<Draw>
    requires seen != []
  {
    var now := seen[|seen| - 1];
    var stays := now.(state := Later(now.state));
    match e
    case Run => STOP
    case Throw =>
      var p := g.chance(now.hp, Tenths(now.state));
      if now.balls == 0 then STOP
      else [Draw(p, 1, Over(Caught)), Draw(1.0 - p, 1, Foes(turn, seen, stays.(balls := now.balls - 1)))]
    case Status(p, sleep) =>
      if now.state != Awake then STOP
      else if sleep then
        [Draw(p / 4.0, 0, Foes(turn, seen, now.(state := Asleep(1)))),
         Draw(p / 4.0, 0, Foes(turn, seen, now.(state := Asleep(2)))),
         Draw(p / 4.0, 0, Foes(turn, seen, now.(state := Asleep(3)))),
         Draw(p / 4.0, 0, Foes(turn, seen, now.(state := Asleep(4)))),
         Draw(1.0 - p, 0, Foes(turn, seen, now))]
      else
        [Draw(p, 0, Foes(turn, seen, now.(state := Paralyzed))), Draw(1.0 - p, 0, Foes(turn, seen, now))]
    case Attack(outcomes) =>
      seq(|outcomes|, k requires 0 <= k < |outcomes| => HitDraw(outcomes[k], turn, seen, stays))
  }

  function HitDraw(o: Outcome, turn: nat, seen: seq<Node>, stays: Node): Draw {
    Draw(o.p, 0, if o.damage >= stays.hp then Over(FoeFainted) else Foes(turn, seen, stays.(hp := stays.hp - o.damage)))
  }

  predicate Live(s: Stand) {
    match s case Ours(_, seen) => seen != [] case Foes(turn, _, _) => turn < TURNS case Over(_) => true
  }

  /** Everything luck may decide next. A policy out of balls, out of turns or
      picking no choice stops. */
  function Draws(g: Game, pol: Policy, s: Stand): seq<Draw>
    requires Live(s)
  {
    match s
    case Over(_) => []
    case Foes(turn, seen, left) =>
      [Draw(FaintChance(g, turn), 0, Over(LeadFainted)),
       Draw(1.0 - FaintChance(g, turn), 0, Ours(turn + 1, seen + [left]))]
    case Ours(turn, seen) =>
      if seen[|seen| - 1].balls == 0 || turn >= TURNS || pol(seen) >= |g.effects| then STOP
      else ActionDraws(g, g.effects[pol(seen)], turn, seen)
  }

  /** Draws left at most. */
  function Left(s: Stand): nat {
    match s
    case Over(_) => 0
    case Ours(turn, _) => if turn < TURNS then 2 * (TURNS - turn) + 1 else 1
    case Foes(turn, _, _) => if turn < TURNS then 2 * (TURNS - turn) else 0
  }

  predicate Onward(draws: seq<Draw>, left: nat) {
    forall k :: 0 <= k < |draws| ==> Live(draws[k].next) && Left(draws[k].next) < left
  }

  lemma DrawsGoOn(g: Game, pol: Policy, s: Stand)
    requires Live(s)
    ensures Onward(Draws(g, pol, s), Left(s))
  {}

  function Begun(d: Draw, plays: seq<Play>): (r: seq<Play>)
    ensures |r| == |plays|
  {
    seq(|plays|, i requires 0 <= i < |plays| => [d] + plays[i])
  }

  /** Every course the attempt can take from `s`, to its end. */
  function Plays(g: Game, pol: Policy, s: Stand): seq<Play>
    requires Live(s)
    decreases Left(s), 1, 0
  {
    if s.Over? then [[]]
    else
      DrawsGoOn(g, pol, s);
      PlaysOf(g, pol, Draws(g, pol, s), Left(s))
  }

  function PlaysOf(g: Game, pol: Policy, draws: seq<Draw>, left: nat): seq<Play>
    requires Onward(draws, left)
    decreases left, 0, |draws|
  {
    if draws == [] then []
    else
      var k := |draws| - 1;
      PlaysOf(g, pol, draws[..k], left) + Begun(draws[k], Plays(g, pol, draws[k].next))
  }

  /** That is what they are: each draw is one luck has there, and the last ends
      the attempt. */
  predicate IsPlay(g: Game, pol: Policy, s: Stand, play: Play)
    requires Live(s)
    decreases |play|
  {
    if s.Over? then play == []
    else play != [] && play[0] in Draws(g, pol, s) && Live(play[0].next) && IsPlay(g, pol, play[0].next, play[1..])
  }

  function Chance(play: Play): real
    decreases |play|
  {
    if play == [] then 1.0 else play[0].chance * Chance(play[1..])
  }

  function Thrown(play: Play): nat
    decreases |play|
  {
    if play == [] then 0 else play[0].thrown + Thrown(play[1..])
  }

  predicate EndsIn(s: Stand, play: Play, end: End) {
    if play == [] then s == Over(end) else play[|play| - 1].next == Over(end)
  }

  /** The chances of those plays that end so, summed. */
  function ChanceOfEnd(s: Stand, plays: seq<Play>, end: End): real
    decreases |plays|
  {
    if plays == [] then 0.0
    else
      var k := |plays| - 1;
      ChanceOfEnd(s, plays[..k], end) + if EndsIn(s, plays[k], end) then Chance(plays[k]) else 0.0
  }

  /** The balls a play throws, weighed by its chance. */
  function ExpectedBalls(plays: seq<Play>): real
    decreases |plays|
  {
    if plays == [] then 0.0
    else
      var k := |plays| - 1;
      ExpectedBalls(plays[..k]) + Chance(plays[k]) * Thrown(plays[k]) as real
  }

  function AllChances(plays: seq<Play>): real
    decreases |plays|
  {
    if plays == [] then 0.0 else AllChances(plays[..|plays| - 1]) + Chance(plays[|plays| - 1])
  }

  // ---- The plays are all there ----

  lemma {:induction false} PlaysAreThose(g: Game, pol: Policy, s: Stand, play: Play)
    requires Live(s)
    ensures play in Plays(g, pol, s) <==> IsPlay(g, pol, s, play)
    decreases Left(s), 1, 0
  {
    hide Draws, Onward;
    if !s.Over? {
      DrawsGoOn(g, pol, s);
      PlaysOfAreThose(g, pol, Draws(g, pol, s), Left(s), play);
      if play != [] && play[0] in Draws(g, pol, s) {
        DrawIsOnward(Draws(g, pol, s), Left(s), play[0]);
      }
    }
  }

  lemma DrawIsOnward(draws: seq<Draw>, left: nat, d: Draw)
    requires Onward(draws, left) && d in draws
    ensures Live(d.next) && Left(d.next) < left
  {}

  lemma {:induction false} PlaysOfAreThose(g: Game, pol: Policy, draws: seq<Draw>, left: nat, play: Play)
    requires Onward(draws, left)
    ensures play in PlaysOf(g, pol, draws, left) <==>
      play != [] && play[0] in draws && Live(play[0].next) && IsPlay(g, pol, play[0].next, play[1..])
    decreases left, 0, |draws|
  {
    hide Draws, IsPlay, Live;
    if draws != [] {
      var k := |draws| - 1;
      var d := draws[k];
      assert draws == draws[..k] + [d];
      PlaysOfAreThose(g, pol, draws[..k], left, play);
      BegunAre(d, Plays(g, pol, d.next), play);
      if play != [] {
        PlaysAreThose(g, pol, d.next, play[1..]);
      }
    }
  }

  lemma BegunAre(d: Draw, plays: seq<Play>, play: Play)
    ensures play in Begun(d, plays) <==> play != [] && play[0] == d && play[1..] in plays
  {
    if play != [] && play[0] == d && play[1..] in plays {
      var i :| 0 <= i < |plays| && plays[i] == play[1..];
      assert Begun(d, plays)[i] == play;
    }
    if play in Begun(d, plays) {
      var i :| 0 <= i < |plays| && Begun(d, plays)[i] == play;
      assert play[1..] == plays[i];
    }
  }

  // ---- Summing over draws ----

  lemma {:induction false} SumsConcat(s: Stand, x: seq<Play>, y: seq<Play>, end: End)
    ensures ChanceOfEnd(s, x + y, end) == ChanceOfEnd(s, x, end) + ChanceOfEnd(s, y, end)
    ensures ExpectedBalls(x + y) == ExpectedBalls(x) + ExpectedBalls(y)
    ensures AllChances(x + y) == AllChances(x) + AllChances(y)
    decreases |y|
  {
    hide Chance, Thrown, EndsIn;
    if y == [] {
      ConcatEmpty(x);
    } else {
      var k := |y| - 1;
      assert (x + y)[..|x + y| - 1] == x + y[..k];
      SumsConcat(s, x, y[..k], end);
    }
  }

  lemma {:induction false} EndsBegun(s: Stand, d: Draw, plays: seq<Play>, end: End)
    requires !s.Over?
    ensures ChanceOfEnd(s, Begun(d, plays), end) == d.chance * ChanceOfEnd(d.next, plays, end)
    decreases |plays|
  {
    hide Chance, Thrown, EndsIn, Begun;
    BegunSnoc(d, plays);
    if plays != [] {
      var k := |plays| - 1;
      var play := plays[k];
      EndsBegun(s, d, plays[..k], end);
      OneBegun(s, d, play, end);
      var last := if EndsIn(d.next, play, end) then Chance(play) else 0.0;
      Distribute(d.chance, ChanceOfEnd(d.next, plays[..k], end), last);
    }
  }

  lemma {:induction false} ChancesBegun(d: Draw, plays: seq<Play>)
    ensures AllChances(Begun(d, plays)) == d.chance * AllChances(plays)
    decreases |plays|
  {
    hide Chance, Thrown, Begun;
    BegunSnoc(d, plays);
    if plays != [] {
      var k := |plays| - 1;
      ChancesBegun(d, plays[..k]);
      OneBegun(Ours(0, []), d, plays[k], Stopped);
      Distribute(d.chance, AllChances(plays[..k]), Chance(plays[k]));
    }
  }

  lemma {:induction false} BallsBegun(d: Draw, plays: seq<Play>)
    ensures ExpectedBalls(Begun(d, plays)) == d.chance * (d.thrown as real * AllChances(plays) + ExpectedBalls(plays))
    decreases |plays|
  {
    hide Chance, Thrown, Begun;
    BegunSnoc(d, plays);
    if plays != [] {
      var k := |plays| - 1;
      BallsBegun(d, plays[..k]);
      OneBegun(Ours(0, []), d, plays[k], Stopped);
      BallsDistribute(d.chance, d.thrown as real, AllChances(plays[..k]), ExpectedBalls(plays[..k]), Chance(plays[k]),
          Thrown(plays[k]) as real);
    }
  }

  lemma BegunSnoc(d: Draw, plays: seq<Play>)
    ensures var begun, k := Begun(d, plays), |plays| - 1;
      if plays == [] then begun == [] else begun[k] == [d] + plays[k] && begun[..k] == Begun(d, plays[..k])
  {
    if plays != [] {
      var k := |plays| - 1;
      assert Begun(d, plays)[..k] == Begun(d, plays[..k]);
    }
  }

  lemma Distribute(c: real, a: real, b: real)
    ensures c * (a + b) == c * a + c * b
  {}

  lemma BallsDistribute(c: real, t: real, mass: real, balls: real, p: real, n: real)
    ensures c * (t * mass + balls) + (c * p) * (t + n) == c * (t * (mass + p) + (balls + p * n))
  {
    assert t * (mass + p) == t * mass + t * p;
    assert (c * p) * (t + n) == c * (p * (t + n));
    assert p * (t + n) == t * p + p * n;
  }

  lemma OneBegun(s: Stand, d: Draw, play: Play, end: End)
    requires !s.Over?
    ensures Chance([d] + play) == d.chance * Chance(play)
    ensures Thrown([d] + play) == d.thrown + Thrown(play)
    ensures EndsIn(s, [d] + play, end) <==> EndsIn(d.next, play, end)
  {
    assert ([d] + play)[1..] == play;
  }

  /** The totals over all plays from a stand. */
  datatype Totals = Totals(caught: real, foeFaints: real, leadFaints: real, balls: real, mass: real)

  function TotalsOf(s: Stand, plays: seq<Play>): Totals {
    Totals(ChanceOfEnd(s, plays, Caught), ChanceOfEnd(s, plays, FoeFainted), ChanceOfEnd(s, plays, LeadFainted),
        ExpectedBalls(plays), AllChances(plays))
  }

  function Add(a: Totals, b: Totals): Totals {
    Totals(a.caught + b.caught, a.foeFaints + b.foeFaints, a.leadFaints + b.leadFaints, a.balls + b.balls,
        a.mass + b.mass)
  }

  function Weighed(d: Draw, t: Totals): Totals {
    Totals(d.chance * t.caught, d.chance * t.foeFaints, d.chance * t.leadFaints,
        d.chance * (d.thrown as real * t.mass + t.balls), d.chance * t.mass)
  }

  function Whole(g: Game, pol: Policy, s: Stand): Totals
    requires Live(s)
  {
    TotalsOf(s, Plays(g, pol, s))
  }

  const NONE := Totals(0.0, 0.0, 0.0, 0.0, 0.0)

  function Drawn(g: Game, pol: Policy, draws: seq<Draw>, left: nat): Totals
    requires Onward(draws, left)
    decreases |draws|
  {
    if draws == [] then NONE
    else
      var k := |draws| - 1;
      Add(Drawn(g, pol, draws[..k], left), Weighed(draws[k], Whole(g, pol, draws[k].next)))
  }

  lemma {:induction false} PlaysAreDrawn(g: Game, pol: Policy, s: Stand, draws: seq<Draw>, left: nat)
    requires !s.Over? && Onward(draws, left)
    ensures TotalsOf(s, PlaysOf(g, pol, draws, left)) == Drawn(g, pol, draws, left)
    decreases |draws|
  {
    hide ChanceOfEnd, ExpectedBalls, AllChances, Plays, Begun;
    if draws == [] {
      NoPlays(s);
    } else {
      var k := |draws| - 1;
      var d := draws[k];
      var before, begun := PlaysOf(g, pol, draws[..k], left), Begun(d, Plays(g, pol, d.next));
      PlaysAreDrawn(g, pol, s, draws[..k], left);
      AllSumsConcat(s, before, begun);
      AllSumsBegun(s, d, Plays(g, pol, d.next));
    }
  }

  lemma NoPlays(s: Stand)
    ensures TotalsOf(s, []) == NONE
  {}

  lemma AllSumsConcat(s: Stand, x: seq<Play>, y: seq<Play>)
    ensures TotalsOf(s, x + y) == Add(TotalsOf(s, x), TotalsOf(s, y))
  {
    hide ChanceOfEnd, ExpectedBalls, AllChances;
    SumsConcat(s, x, y, Caught);
    SumsConcat(s, x, y, FoeFainted);
    SumsConcat(s, x, y, LeadFainted);
  }

  lemma AllSumsBegun(s: Stand, d: Draw, plays: seq<Play>)
    requires !s.Over?
    ensures TotalsOf(s, Begun(d, plays)) == Weighed(d, TotalsOf(d.next, plays))
  {
    hide ChanceOfEnd, ExpectedBalls, AllChances, Begun;
    EndsBegun(s, d, plays, Caught);
    EndsBegun(s, d, plays, FoeFainted);
    EndsBegun(s, d, plays, LeadFainted);
    ChancesBegun(d, plays);
    BallsBegun(d, plays);
  }

  lemma WholeIsDrawn(g: Game, pol: Policy, s: Stand)
    requires Live(s) && !s.Over?
    ensures Onward(Draws(g, pol, s), Left(s))
    ensures Whole(g, pol, s) == Drawn(g, pol, Draws(g, pol, s), Left(s))
  {
    hide Draws, Onward, PlaysOf, TotalsOf, Drawn;
    DrawsGoOn(g, pol, s);
    PlaysAreDrawn(g, pol, s, Draws(g, pol, s), Left(s));
  }

  lemma WholeOfOver(g: Game, pol: Policy, end: End)
    ensures Whole(g, pol, Over(end)) == Totals(if end == Caught then 1.0 else 0.0,
      if end == FoeFainted then 1.0 else 0.0, if end == LeadFainted then 1.0 else 0.0, 0.0, 1.0)
  {
    var none: Play := [];
    assert Plays(g, pol, Over(end)) == [none];
    OnlyPlay(Over(end), none, Caught);
    OnlyPlay(Over(end), none, FoeFainted);
    OnlyPlay(Over(end), none, LeadFainted);
  }

  lemma OnlyPlay(s: Stand, play: Play, end: End)
    ensures ChanceOfEnd(s, [play], end) == if EndsIn(s, play, end) then Chance(play) else 0.0
    ensures ExpectedBalls([play]) == Chance(play) * Thrown(play) as real && AllChances([play]) == Chance(play)
  {
    hide Chance, Thrown, EndsIn;
    assert [play][..0] == [];
  }

  // ---- The recursion's numbers are the plays' ----

  predicate Matches(o: Outlook, t: Totals, weight: real) {
    && o.catch_ == t.caught && o.foeFaints == t.foeFaints && o.leadFaints == t.leadFaints && o.balls == t.balls
    && o.value == t.caught - weight * t.leadFaints
  }

  /** An outlook tells the totals, all plays together being certain. */
  predicate Tells(o: Outlook, t: Totals, weight: real) {
    Matches(o, t, weight) && t.mass == 1.0
  }

  lemma PlusMatches(a: Outlook, x: Totals, b: Outlook, y: Totals, weight: real)
    requires Matches(a, x, weight) && Matches(b, y, weight)
    ensures Matches(Plus(a, b), Add(x, y), weight)
  {
    assert weight * (x.leadFaints + y.leadFaints) == weight * x.leadFaints + weight * y.leadFaints;
  }

  lemma ScaledMatches(o: Outlook, d: Draw, t: Totals, weight: real)
    requires Tells(o, t, weight) && d.thrown <= 1
    ensures Matches(Scaled(if d.thrown == 1 then Missed(o) else o, d.chance), Weighed(d, t), weight)
    ensures Weighed(d, t).mass == d.chance
  {
    assert (t.caught - weight * t.leadFaints) * d.chance == d.chance * t.caught - weight * (d.chance * t.leadFaints);
    var n := if d.thrown == 1 then 1.0 else 0.0;
    assert d.thrown as real == n && n * t.mass == n;
    assert d.chance * (n * t.mass + t.balls) == (n + t.balls) * d.chance;
  }

  lemma DrawnSnoc(g: Game, pol: Policy, draws: seq<Draw>, d: Draw, left: nat)
    requires Onward(draws + [d], left)
    ensures Onward(draws, left) && Live(d.next)
    ensures Drawn(g, pol, draws + [d], left) == Add(Drawn(g, pol, draws, left), Weighed(d, Whole(g, pol, d.next)))
  {
    hide Whole, Live, Left, Weighed;
    var all := draws + [d];
    forall k | 0 <= k < |draws|
      ensures draws[k] == all[k]
    {}
    assert all[|draws|] == d && all[..|draws|] == draws;
  }

  lemma OneDraw(g: Game, pol: Policy, d: Draw, left: nat)
    requires Onward([d], left)
    ensures Live(d.next) && Drawn(g, pol, [d], left) == Weighed(d, Whole(g, pol, d.next))
  {
    hide Whole, Live, Left;
    assert [] + [d] == [d];
    DrawnSnoc(g, pol, [], d, left);
  }

  lemma TwoDraws(g: Game, pol: Policy, s: Stand, a: Draw, b: Draw)
    requires Live(s) && !s.Over? && Draws(g, pol, s) == [a, b]
    ensures Live(a.next) && Live(b.next)
    ensures Whole(g, pol, s) == Add(Weighed(a, Whole(g, pol, a.next)), Weighed(b, Whole(g, pol, b.next)))
  {
    hide Whole, Live, Left, Draws, Drawn, Onward, Weighed;
    WholeIsDrawn(g, pol, s);
    assert [a, b] == [a] + [b];
    DrawnSnoc(g, pol, [a], b, Left(s));
    OneDraw(g, pol, a, Left(s));
  }

  lemma StoppedTells(g: Game, pol: Policy, s: Stand, weight: real)
    requires Live(s) && !s.Over? && Draws(g, pol, s) == STOP
    ensures Tells(ZERO, Whole(g, pol, s), weight)
  {
    hide Whole, Live, Left, Draws, Drawn, Onward;
    WholeIsDrawn(g, pol, s);
    OneDraw(g, pol, STOP[0], Left(s));
    WholeOfOver(g, pol, Stopped);
  }

  /** The foe's turn. */
  lemma {:induction false} FoesTurnTells(g: Game, pol: Policy, turn: nat, seen: seq<Node>, balls: nat, hp: nat,
      s: State)
    requires ValidGame(g) && seen != [] && turn < TURNS
    ensures Tells(FoeTurn(g, turn, balls, hp, s, NextFollow(g, pol, turn, seen)),
              Whole(g, pol, Foes(turn, seen, Node(balls, hp, Later(s)))), g.leadFaint)
    decreases TURNS - turn, 0, 0
  {
    hide Whole, Live, Left, Draws, Weighed, Follow, ValidGame;
    var w, left := g.leadFaint, Node(balls, hp, Later(s));
    var faint, on := Draw(FaintChance(g, turn), 0, Over(LeadFainted)), Draw(1.0 - FaintChance(g, turn), 0,
        Ours(turn + 1, seen + [left]));
    FoesDraws(g, pol, turn, seen, left);
    TwoDraws(g, pol, Foes(turn, seen, left), faint, on);
    WholeOfOver(g, pol, LeadFainted);
    ScaledMatches(Outlook(-w, 0.0, 0.0, 1.0, 0.0), faint, Whole(g, pol, faint.next), w);
    FollowIsItsPlays(g, pol, turn + 1, seen + [left]);
    var rest := Follow(g, pol, turn + 1, seen + [left]);
    ScaledMatches(rest, on, Whole(g, pol, on.next), w);
    PlusMatches(Scaled(Outlook(-w, 0.0, 0.0, 1.0, 0.0), faint.chance), Weighed(faint, Whole(g, pol, faint.next)),
        Scaled(rest, on.chance), Weighed(on, Whole(g, pol, on.next)), w);
  }

  lemma FoesDraws(g: Game, pol: Policy, turn: nat, seen: seq<Node>, left: Node)
    requires turn < TURNS
    ensures var s := Foes(turn, seen, left);
      Live(s) && Draws(g, pol, s) == [Draw(FaintChance(g, turn), 0, Over(LeadFainted)),
        Draw(1.0 - FaintChance(g, turn), 0, Ours(turn + 1, seen + [left]))]
  {}

  /** The outlook of following a policy is told by the plays it may come to:
      its chances of a catch, of the foe fainting and of the lead fainting are
      the summed chances of the plays that end so, its balls are what the plays
      throw on average, and its value is the catches less the weighted faints. */
  lemma {:induction false} FollowIsItsPlays(g: Game, pol: Policy, turn: nat, seen: seq<Node>)
    requires ValidGame(g) && seen != []
    ensures Tells(Follow(g, pol, turn, seen), Whole(g, pol, Ours(turn, seen)), g.leadFaint)
    decreases if turn < TURNS then TURNS - turn else 0, 3
  {
    hide Whole, Weighed, Q, ValidGame, ActionDraws, Tells, NextFollow;
    var now, s := seen[|seen| - 1], Ours(turn, seen);
    if now.balls == 0 || turn >= TURNS || pol(seen) >= |g.effects| {
      StoppedTells(g, pol, s, g.leadFaint);
    } else {
      ActionTells(g, pol, turn, seen);
    }
  }

  lemma {:induction false} ActionTells(g: Game, pol: Policy, turn: nat, seen: seq<Node>)
    requires ValidGame(g) && seen != [] && turn < TURNS && pol(seen) < |g.effects|
    requires seen[|seen| - 1].balls > 0
    ensures var now := seen[|seen| - 1];
      var q := Q(g, pol(seen), turn, now.balls, now.hp, now.state, NextFollow(g, pol, turn, seen));
      Tells(if q.Some? then q.value else ZERO, Whole(g, pol, Ours(turn, seen)), g.leadFaint)
    decreases TURNS - turn, 2
  {
    hide Whole, Weighed, ValidGame, Tells, NextFollow, Sleeps, Attacked, FoeTurn, Scaled, Plus, Left;
    var now, s := seen[|seen| - 1], Ours(turn, seen);
    match g.effects[pol(seen)]
    case Run => StoppedTells(g, pol, s, g.leadFaint);
    case Throw => ThrowTells(g, pol, turn, seen);
    case Status(p, sleep) =>
      if now.state != Awake {
        StoppedTells(g, pol, s, g.leadFaint);
      } else if sleep {
        SleepTells(g, pol, turn, seen, p);
      } else {
        ParalysisTells(g, pol, turn, seen, p);
      }
    case Attack(outcomes) => AttackTells(g, pol, turn, seen, outcomes);
  }

  lemma {:induction false} ThrowTells(g: Game, pol: Policy, turn: nat, seen: seq<Node>)
    requires ValidGame(g) && seen != [] && turn < TURNS && pol(seen) < |g.effects| && g.effects[pol(seen)].Throw?
    requires seen[|seen| - 1].balls > 0
    ensures var now := seen[|seen| - 1];
      var p, rest := g.chance(now.hp, CatchX10(now.state)), NextFollow(g, pol, turn, seen);
      var missed := Missed(FoeTurn(g, turn, now.balls - 1, now.hp, now.state, rest));
      Tells(Plus(Scaled(CAUGHT, p), Scaled(missed, 1.0 - p)), Whole(g, pol, Ours(turn, seen)), g.leadFaint)
    decreases TURNS - turn, 1
  {
    hide Whole, Weighed, ValidGame, NextFollow, FoeTurn, Scaled, Plus, Left;
    var now, s, w := seen[|seen| - 1], Ours(turn, seen), g.leadFaint;
    var p := g.chance(now.hp, Tenths(now.state));
    var left := Node(now.balls - 1, now.hp, Later(now.state));
    var hit, miss := Draw(p, 1, Over(Caught)), Draw(1.0 - p, 1, Foes(turn, seen, left));
    TwoDraws(g, pol, s, hit, miss);
    WholeOfOver(g, pol, Caught);
    FoesTurnTells(g, pol, turn, seen, now.balls - 1, now.hp, now.state);
    var rest := FoeTurn(g, turn, now.balls - 1, now.hp, now.state, NextFollow(g, pol, turn, seen));
    ScaledMatches(Outlook(1.0, 1.0, 0.0, 0.0, 0.0), hit, Whole(g, pol, hit.next), w);
    ScaledMatches(rest, miss, Whole(g, pol, miss.next), w);
    PlusMatches(Scaled(CAUGHT, p), Weighed(hit, Whole(g, pol, hit.next)), Scaled(Missed(rest), 1.0 - p),
        Weighed(miss, Whole(g, pol, miss.next)), w);
  }

  lemma {:induction false} ParalysisTells(g: Game, pol: Policy, turn: nat, seen: seq<Node>, p: real)
    requires ValidGame(g) && seen != [] && turn < TURNS && pol(seen) < |g.effects|
    requires g.effects[pol(seen)] == Status(p, false) && seen[|seen| - 1].balls > 0 && seen[|seen| - 1].state == Awake
    ensures var now, rest := seen[|seen| - 1], NextFollow(g, pol, turn, seen);
      var landed := Scaled(FoeTurn(g, turn, now.balls, now.hp, Paralyzed, rest), p);
      var missed := Scaled(FoeTurn(g, turn, now.balls, now.hp, Awake, rest), 1.0 - p);
      Tells(Plus(landed, missed), Whole(g, pol, Ours(turn, seen)), g.leadFaint)
    decreases TURNS - turn, 1
  {
    hide Whole, Weighed, ValidGame, NextFollow, FoeTurn, Scaled, Plus, Left;
    var now, s, w := seen[|seen| - 1], Ours(turn, seen), g.leadFaint;
    var hit, miss := Draw(p, 0, Foes(turn, seen, now.(state := Paralyzed))), Draw(1.0 - p, 0, Foes(turn, seen, now));
    TwoDraws(g, pol, s, hit, miss);
    FoesTurnTells(g, pol, turn, seen, now.balls, now.hp, Paralyzed);
    FoesTurnTells(g, pol, turn, seen, now.balls, now.hp, Awake);
    var landed := FoeTurn(g, turn, now.balls, now.hp, Paralyzed, NextFollow(g, pol, turn, seen));
    var missed := FoeTurn(g, turn, now.balls, now.hp, Awake, NextFollow(g, pol, turn, seen));
    ScaledMatches(landed, hit, Whole(g, pol, hit.next), w);
    ScaledMatches(missed, miss, Whole(g, pol, miss.next), w);
    PlusMatches(Scaled(landed, p), Weighed(hit, Whole(g, pol, hit.next)), Scaled(missed, 1.0 - p),
        Weighed(miss, Whole(g, pol, miss.next)), w);
  }

  /** The first `n` lengths a sleep may have. */
  function SleepDraws(each: real, turn: nat, seen: seq<Node>, now: Node, n: nat): seq<Draw> {
    seq(n, k requires 0 <= k < n => Draw(each, 0, Foes(turn, seen, now.(state := Asleep(k + 1)))))
  }

  lemma NoSleepDraws(each: real, turn: nat, seen: seq<Node>, now: Node)
    ensures SleepDraws(each, turn, seen, now, 0) == []
  {}

  lemma SleepDrawsSnoc(each: real, turn: nat, seen: seq<Node>, now: Node, n: nat)
    ensures SleepDraws(each, turn, seen, now, n + 1) == SleepDraws(each, turn, seen, now, n)
      + [Draw(each, 0, Foes(turn, seen, now.(state := Asleep(n + 1))))]
  {}

  lemma OnwardSnoc(draws: seq<Draw>, d: Draw, left: nat)
    requires Onward(draws, left) && Live(d.next) && Left(d.next) < left
    ensures Onward(draws + [d], left)
  {}

  lemma {:induction false} SleepsTell(g: Game, pol: Policy, turn: nat, seen: seq<Node>, each: real, n: nat)
    requires ValidGame(g) && seen != [] && turn < TURNS && n <= 4
    ensures var now, left := seen[|seen| - 1], 2 * (TURNS - turn) + 1;
      var draws := SleepDraws(each, turn, seen, now, n);
      && Onward(draws, left)
      && Matches(Sleeps(g, turn, now.balls, now.hp, each, SLEEP_ACTIONS[..n], NextFollow(g, pol, turn, seen)),
           Drawn(g, pol, draws, left), g.leadFaint)
      && Drawn(g, pol, draws, left).mass == Share(each, n)
    decreases TURNS - turn, 1, n
  {
    hide Whole, Weighed, ValidGame, NextFollow, FoeTurn, Scaled, Plus, SleepDraws;
    if n == 0 {
      NoSleepDraws(each, turn, seen, seen[|seen| - 1]);
    } else {
      var now, left, k := seen[|seen| - 1], 2 * (TURNS - turn) + 1, n - 1;
      var before, d := SleepDraws(each, turn, seen, now, k), Draw(each, 0, Foes(turn, seen, now.(state := Asleep(n))));
      SleepDrawsSnoc(each, turn, seen, now, k);
      SleepsTell(g, pol, turn, seen, each, k);
      OnwardSnoc(before, d, left);
      DrawnSnoc(g, pol, before, d, left);
      FoesTurnTells(g, pol, turn, seen, now.balls, now.hp, Asleep(n + 1));
      var rest := NextFollow(g, pol, turn, seen);
      var foe := FoeTurn(g, turn, now.balls, now.hp, Asleep(n + 1), rest);
      ScaledMatches(foe, d, Whole(g, pol, d.next), g.leadFaint);
      assert SLEEP_ACTIONS[..n][..k] == SLEEP_ACTIONS[..k];
      PlusMatches(Sleeps(g, turn, now.balls, now.hp, each, SLEEP_ACTIONS[..k], rest), Drawn(g, pol, before, left),
          Scaled(foe, each), Weighed(d, Whole(g, pol, d.next)), g.leadFaint);
    }
  }

  lemma FourShares(p: real)
    ensures Share(p / 4.0, 4) == p
  {
    var each := p / 4.0;
    assert Share(each, 1) == each;
    assert Share(each, 3) == Share(each, 2) + each && Share(each, 2) == Share(each, 1) + each;
  }

  lemma {:induction false} SleepTells(g: Game, pol: Policy, turn: nat, seen: seq<Node>, p: real)
    requires ValidGame(g) && seen != [] && turn < TURNS && pol(seen) < |g.effects|
    requires g.effects[pol(seen)] == Status(p, true) && seen[|seen| - 1].balls > 0 && seen[|seen| - 1].state == Awake
    ensures var now, rest := seen[|seen| - 1], NextFollow(g, pol, turn, seen);
      var landed := Sleeps(g, turn, now.balls, now.hp, p / 4.0, SLEEP_ACTIONS, rest);
      var missed := Scaled(FoeTurn(g, turn, now.balls, now.hp, Awake, rest), 1.0 - p);
      Tells(Plus(landed, missed), Whole(g, pol, Ours(turn, seen)), g.leadFaint)
    decreases TURNS - turn, 1, 5
  {
    hide Whole, Weighed, ValidGame, NextFollow, FoeTurn, Scaled, Plus, Sleeps, Drawn;
    var now, s, left := seen[|seen| - 1], Ours(turn, seen), 2 * (TURNS - turn) + 1;
    var draws, miss := SleepDraws(p / 4.0, turn, seen, now, 4), Draw(1.0 - p, 0, Foes(turn, seen, now));
    assert Draws(g, pol, s) == draws + [miss];
    WholeIsDrawn(g, pol, s);
    DrawnSnoc(g, pol, draws, miss, left);
    SleepsTell(g, pol, turn, seen, p / 4.0, 4);
    assert SLEEP_ACTIONS[..4] == SLEEP_ACTIONS;
    FourShares(p);
    FoesTurnTells(g, pol, turn, seen, now.balls, now.hp, Awake);
    var rest := NextFollow(g, pol, turn, seen);
    var missed := FoeTurn(g, turn, now.balls, now.hp, Awake, rest);
    ScaledMatches(missed, miss, Whole(g, pol, miss.next), g.leadFaint);
    PlusMatches(Sleeps(g, turn, now.balls, now.hp, p / 4.0, SLEEP_ACTIONS, rest), Drawn(g, pol, draws, left),
        Scaled(missed, 1.0 - p), Weighed(miss, Whole(g, pol, miss.next)), g.leadFaint);
  }

  lemma {:induction false} HitsTell(g: Game, pol: Policy, turn: nat, seen: seq<Node>, draws: seq<Draw>,
      outcomes: seq<Outcome>)
    requires ValidGame(g) && seen != [] && turn < TURNS && |draws| == |outcomes|
    requires var now := seen[|seen| - 1];
      forall k :: 0 <= k < |draws| ==>
        draws[k] == HitDraw(outcomes[k], turn, seen, now.(state := Later(now.state)))
    requires Onward(draws, 2 * (TURNS - turn) + 1)
    ensures var now, left := seen[|seen| - 1], 2 * (TURNS - turn) + 1;
      var rest := NextFollow(g, pol, turn, seen);
      var hits, drawn := Attacked(g, turn, now.balls, now.hp, now.state, outcomes, rest), Drawn(g, pol, draws, left);
      Matches(hits, drawn, g.leadFaint) && drawn.mass == TotalChance(outcomes)
    decreases TURNS - turn, 1, |outcomes|
  {
    hide Whole, Weighed, ValidGame, NextFollow, FoeTurn, Scaled, Plus, TotalChance;
    if outcomes == [] {
      NoChance();
    } else {
      var now, left, k, w := seen[|seen| - 1], 2 * (TURNS - turn) + 1, |outcomes| - 1, g.leadFaint;
      var rest, o, d := NextFollow(g, pol, turn, seen), outcomes[k], draws[k];
      HitsTell(g, pol, turn, seen, draws[..k], outcomes[..k]);
      assert draws == draws[..k] + [d] && outcomes == outcomes[..k] + [o];
      DrawnSnoc(g, pol, draws[..k], d, left);
      TotalChanceSnoc(outcomes[..k], o);
      var then_ := if o.damage >= now.hp then FOE_FAINTED else FoeTurn(g, turn, now.balls, now.hp - o.damage,
        now.state, rest);
      HitTells(g, pol, turn, seen, o);
      ScaledMatches(then_, d, Whole(g, pol, d.next), w);
      PlusMatches(Attacked(g, turn, now.balls, now.hp, now.state, outcomes[..k], rest),
          Drawn(g, pol, draws[..k], left), Scaled(then_, o.p), Weighed(d, Whole(g, pol, d.next)), w);
    }
  }

  lemma NoChance()
    ensures TotalChance([]) == 0.0
  {}

  lemma {:induction false} HitTells(g: Game, pol: Policy, turn: nat, seen: seq<Node>, o: Outcome)
    requires ValidGame(g) && seen != [] && turn < TURNS
    ensures var now, rest := seen[|seen| - 1], NextFollow(g, pol, turn, seen);
      var d := HitDraw(o, turn, seen, now.(state := Later(now.state)));
      Live(d.next) && Tells(if o.damage >= now.hp then FOE_FAINTED
        else FoeTurn(g, turn, now.balls, now.hp - o.damage, now.state, rest), Whole(g, pol, d.next), g.leadFaint)
    decreases TURNS - turn, 1, 0
  {
    hide Whole, ValidGame, NextFollow, FoeTurn;
    var now := seen[|seen| - 1];
    if o.damage >= now.hp {
      WholeOfOver(g, pol, FoeFainted);
    } else {
      FoesTurnTells(g, pol, turn, seen, now.balls, now.hp - o.damage, now.state);
    }
  }

  lemma {:induction false} AttackTells(g: Game, pol: Policy, turn: nat, seen: seq<Node>, outcomes: seq<Outcome>)
    requires ValidGame(g) && seen != [] && turn < TURNS && pol(seen) < |g.effects|
    requires g.effects[pol(seen)] == Attack(outcomes) && seen[|seen| - 1].balls > 0
    ensures var now, rest := seen[|seen| - 1], NextFollow(g, pol, turn, seen);
      Tells(Attacked(g, turn, now.balls, now.hp, now.state, outcomes, rest), Whole(g, pol, Ours(turn, seen)),
        g.leadFaint)
    decreases TURNS - turn, 1, |outcomes| + 1
  {
    hide Whole, NextFollow, FoeTurn, Attacked, Drawn, TotalChance, HitDraw;
    var s := Ours(turn, seen);
    WholeIsDrawn(g, pol, s);
    HitsTell(g, pol, turn, seen, Draws(g, pol, s), outcomes);
    assert ValidEffect(g.effects[pol(seen)]);
  }

  // ---- What the solver is for ----

  /** The solver's outlook is told by the plays of the policy it plays, and no
      policy's plays, whatever it makes of what it has seen, are worth more. */
  lemma BestIsWorthTheBestPlays(g: Game, turn: nat, now: Node, pol: Policy)
    requires ValidGame(g)
    ensures var best, s := Best(g, turn, now.balls, now.hp, now.state), Ours(turn, [now]);
      var any := Whole(g, pol, s);
      && Tells(best, Whole(g, Greedy(g, turn), s), g.leadFaint)
      && any.mass == 1.0 && any.caught - g.leadFaint * any.leadFaints <= best.value
  {
    hide Whole, Best, Follow, ValidGame, Greedy;
    FollowIsItsPlays(g, pol, turn, [now]);
    NoPolicyBeatsBest(g, pol, turn, [now]);
    FollowIsItsPlays(g, Greedy(g, turn), turn, [now]);
    GreedyAttainsBest(g, turn, turn, [now]);
  }
}
