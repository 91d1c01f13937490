/** The odds of a catch: a finite-horizon decision problem over turn, balls, the
    foe's HP and its status, in exact reals. The catch chance, the damage
    outcomes and the lead's hazard come from elsewhere and are only known to be
    probabilities. */
module CatchOdds {
  import opened Seqs
  import opened Wrappers

  const MAX_TURNS: nat := 20
  const SLEEP_ACTIONS: seq<nat> := [1, 2, 3, 4]

  /** `value` is P(catch) less the weight of a faint times P(lead faints). */
  datatype Outlook = Outlook(value: real, catch_: real, foeFaints: real, leadFaints: real, balls: real)

  const ZERO := Outlook(0.0, 0.0, 0.0, 0.0, 0.0)

  function Scaled(o: Outlook, p: real): Outlook {
    Outlook(o.value * p, o.catch_ * p, o.foeFaints * p, o.leadFaints * p, o.balls * p)
  }

  function Plus(a: Outlook, b: Outlook): Outlook {
    Outlook(a.value + b.value, a.catch_ + b.catch_, a.foeFaints + b.foeFaints, a.leadFaints + b.leadFaints,
        a.balls + b.balls)
  }

  /** The foe's status: asleep for this many more of our actions. */
  datatype State = Awake | Paralyzed | Asleep(n: nat)

  function CatchX10(s: State): nat {
    match s case Awake => 10 case Paralyzed => 15 case Asleep(_) => 20
  }

  function AfterTurn(s: State): State {
    match s
    case Asleep(n) => if n > 1 then Asleep(n - 1) else Awake
    case _ => s
  }

  datatype Outcome = Outcome(damage: nat, p: real)

  datatype Effect = Throw | Status(p: real, sleep: bool) | Attack(outcomes: seq<Outcome>) | Run

  /** One scenario. `chance` is the catch probability at an HP and a status
      multiplier. */
  datatype Game = Game(effects: seq<Effect>, chance: (nat, nat) -> real, hazard: seq<real>, leadFaint: real)

  predicate IsChance(p: real) { 0.0 <= p <= 1.0 }

  function TotalChance(outcomes: seq<Outcome>): real
    decreases |outcomes|
  {
    if outcomes == [] then 0.0 else outcomes[0].p + TotalChance(outcomes[1..])
  }

  predicate ValidEffect(e: Effect) {
    match e
    case Status(p, _) => IsChance(p)
    case Attack(outcomes) =>
      TotalChance(outcomes) == 1.0 && forall i :: 0 <= i < |outcomes| ==> outcomes[i].p >= 0.0
    case _ => true
  }

  ghost predicate ValidGame(g: Game) {
    && (forall i :: 0 <= i < |g.effects| ==> ValidEffect(g.effects[i]))
    && (forall hp, x10 :: IsChance(g.chance(hp, x10)))
    && (forall t :: 0 <= t < |g.hazard| ==> IsChance(g.hazard[t]))
  }

  // ---- The plain recursion ----

  /** What the rest of the attempt looks like from the next turn on. */
  type Rest = (nat, nat, State) -> Outlook

  function Hazard(g: Game, turn: nat): real {
    if turn < |g.hazard| then g.hazard[turn] else 1.0
  }

  /** The foe's attack after our action, then the next turn. */
  function FoeTurn(g: Game, turn: nat, balls: nat, hp: nat, s: State, rest: Rest): Outlook {
    var h := Hazard(g, turn);
    var fainted := Outlook(-g.leadFaint, 0.0, 0.0, 1.0, 0.0);
    Plus(Scaled(fainted, h), Scaled(rest(balls, hp, AfterTurn(s)), 1.0 - h))
  }

  const CAUGHT := Outlook(1.0, 1.0, 0.0, 0.0, 1.0)
  const FOE_FAINTED := Outlook(0.0, 0.0, 1.0, 0.0, 0.0)

  function Missed(o: Outlook): Outlook { o.(balls := o.balls + 1.0) }

  function Sleeps(g: Game, turn: nat, balls: nat, hp: nat, each: real, actions: seq<nat>, rest: Rest): Outlook
    decreases |actions|
  {
    if actions == [] then ZERO
    else
      var k := |actions| - 1;
      Plus(Sleeps(g, turn, balls, hp, each, actions[..k], rest),
           Scaled(FoeTurn(g, turn, balls, hp, Asleep(actions[k] + 1), rest), each))
  }

  function Attacked(g: Game, turn: nat, balls: nat, hp: nat, s: State, outcomes: seq<Outcome>, rest: Rest): Outlook
    decreases |outcomes|
  {
    if outcomes == [] then ZERO
    else
      var k := |outcomes| - 1;
      var o := outcomes[k];
      var then_ := if o.damage >= hp then FOE_FAINTED else FoeTurn(g, turn, balls, hp - o.damage, s, rest);
      Plus(Attacked(g, turn, balls, hp, s, outcomes[..k], rest), Scaled(then_, o.p))
  }

  /** The outlook of choice `i`; none when it is not possible. */
  function Q(g: Game, i: nat, turn: nat, balls: nat, hp: nat, s: State, rest: Rest): Option<Outlook>
    requires i < |g.effects|
  {
    match g.effects[i]
    case Run => Some(ZERO)
    case Throw =>
      if balls == 0 then None
      else
        var p := g.chance(hp, CatchX10(s));
        Some(Plus(Scaled(CAUGHT, p), Scaled(Missed(FoeTurn(g, turn, balls - 1, hp, s, rest)), 1.0 - p)))
    case Status(p, sleep) =>
      if s != Awake then None
      else
        var missed := Scaled(FoeTurn(g, turn, balls, hp, s, rest), 1.0 - p);
        var landed :=
          if sleep then Sleeps(g, turn, balls, hp, p / 4.0, SLEEP_ACTIONS, rest)
          else Scaled(FoeTurn(g, turn, balls, hp, Paralyzed, rest), p);
        Some(Plus(landed, missed))
    case Attack(outcomes) => Some(Attacked(g, turn, balls, hp, s, outcomes, rest))
  }

  /** The best of the first `n` choices, earlier ones and giving up winning ties. */
  function BestOf(g: Game, n: nat, turn: nat, balls: nat, hp: nat, s: State, rest: Rest): Outlook
    requires n <= |g.effects|
    decreases n
  {
    if n == 0 then ZERO
    else
      var a := BestOf(g, n - 1, turn, balls, hp, s, rest);
      match Q(g, n - 1, turn, balls, hp, s, rest)
      case None => a
      case Some(b) => if b.value > a.value then b else a
  }

  function Best(g: Game, turn: nat, balls: nat, hp: nat, s: State): Outlook
    decreases MAX_TURNS - turn, 0
  {
    if balls == 0 || turn >= MAX_TURNS then ZERO
    else BestOf(g, |g.effects|, turn, balls, hp, s, NextBest(g, turn))
  }

  function NextBest(g: Game, turn: nat): Rest
    requires turn < MAX_TURNS
    decreases MAX_TURNS - turn - 1, 1
  {
    (balls: nat, hp: nat, s: State) => Best(g, turn + 1, balls, hp, s)
  }

  // ---- The laws of an outlook ----

  /** An outlook over `mass` of the chances with at most `balls` balls to throw. */
  predicate Lawful(o: Outlook, mass: real, balls: real, weight: real) {
    && o.catch_ >= 0.0 && o.foeFaints >= 0.0 && o.leadFaints >= 0.0
    && o.catch_ + o.foeFaints + o.leadFaints <= mass
    && o.value == o.catch_ - weight * o.leadFaints
    && 0.0 <= o.balls <= mass * balls
  }

  lemma Product(a: real, b: real, p: real)
    requires a <= b && p >= 0.0
    ensures a * p <= b * p
  {}

  lemma ScaledLawful(o: Outlook, mass: real, balls: real, weight: real, p: real)
    requires Lawful(o, mass, balls, weight) && p >= 0.0
    ensures Lawful(Scaled(o, p), mass * p, balls, weight)
  {
    Product(0.0, o.catch_, p);
    Product(0.0, o.foeFaints, p);
    Product(0.0, o.leadFaints, p);
    Product(o.catch_ + o.foeFaints + o.leadFaints, mass, p);
    assert (o.catch_ + o.foeFaints + o.leadFaints) * p == o.catch_ * p + o.foeFaints * p + o.leadFaints * p;
    Product(0.0, o.balls, p);
    Product(o.balls, mass * balls, p);
    assert mass * balls * p == (mass * p) * balls;
    assert (o.catch_ - weight * o.leadFaints) * p == o.catch_ * p - weight * (o.leadFaints * p);
  }

  lemma PlusLawful(a: Outlook, m: real, b: Outlook, n: real, balls: real, weight: real)
    requires Lawful(a, m, balls, weight) && Lawful(b, n, balls, weight)
    ensures Lawful(Plus(a, b), m + n, balls, weight)
  {
    assert (m + n) * balls == m * balls + n * balls;
    assert weight * (a.leadFaints + b.leadFaints) == weight * a.leadFaints + weight * b.leadFaints;
  }

  ghost predicate LawfulRest(rest: Rest, weight: real) {
    forall balls, hp, s :: Lawful(rest(balls, hp, s), 1.0, balls as real, weight)
  }

  lemma FoeTurnLawful(g: Game, turn: nat, balls: nat, hp: nat, s: State, rest: Rest)
    requires ValidGame(g) && LawfulRest(rest, g.leadFaint)
    ensures Lawful(FoeTurn(g, turn, balls, hp, s, rest), 1.0, balls as real, g.leadFaint)
  {
    hide Scaled, Plus;
    var h, b := Hazard(g, turn), balls as real;
    var fainted := Outlook(-g.leadFaint, 0.0, 0.0, 1.0, 0.0);
    var on := rest(balls, hp, AfterTurn(s));
    assert Lawful(fainted, 1.0, b, g.leadFaint);
    assert Lawful(on, 1.0, b, g.leadFaint);
    ScaledLawful(fainted, 1.0, b, g.leadFaint, h);
    ScaledLawful(on, 1.0, b, g.leadFaint, 1.0 - h);
    PlusLawful(Scaled(fainted, h), h, Scaled(on, 1.0 - h), 1.0 - h, b, g.leadFaint);
  }

  lemma ZeroLawful(balls: real, weight: real)
    requires balls >= 0.0
    ensures Lawful(ZERO, 0.0, balls, weight) && Lawful(ZERO, 1.0, balls, weight)
  {}

  /** The chance of one of `n` outcomes of chance `each`. */
  function Share(each: real, n: nat): real {
    if n == 0 then 0.0 else Share(each, n - 1) + each
  }

  lemma {:induction false} SleepsLawful(g: Game, turn: nat, balls: nat, hp: nat, each: real, actions: seq<nat>,
      rest: Rest)
    requires ValidGame(g) && LawfulRest(rest, g.leadFaint) && each >= 0.0
    ensures Lawful(Sleeps(g, turn, balls, hp, each, actions, rest), Share(each, |actions|), balls as real, g.leadFaint)
    decreases |actions|
  {
    hide Scaled, Plus, FoeTurn, ValidGame, LawfulRest, Lawful;
    if actions == [] {
      ZeroLawful(balls as real, g.leadFaint);
    } else {
      var k := |actions| - 1;
      SleepsLawful(g, turn, balls, hp, each, actions[..k], rest);
      var foe := FoeTurn(g, turn, balls, hp, Asleep(actions[k] + 1), rest);
      FoeTurnLawful(g, turn, balls, hp, Asleep(actions[k] + 1), rest);
      ScaledLawful(foe, 1.0, balls as real, g.leadFaint, each);
      PlusLawful(Sleeps(g, turn, balls, hp, each, actions[..k], rest), Share(each, k), Scaled(foe, each), 1.0 * each,
          balls as real, g.leadFaint);
    }
  }

  lemma {:induction false} TotalChanceSnoc(x: seq<Outcome>, o: Outcome)
    ensures TotalChance(x + [o]) == TotalChance(x) + o.p
    decreases |x|
  {
    if x == [] {
      ConcatEmpty([o]);
      assert [o][1..] == [];
    } else {
      TailOfConcat(x, [o]);
      TotalChanceSnoc(x[1..], o);
    }
  }

  lemma FoeFaintedLawful(balls: real, weight: real)
    requires balls >= 0.0
    ensures Lawful(FOE_FAINTED, 1.0, balls, weight)
  {}

  lemma {:induction false} AttackedLawful(g: Game, turn: nat, balls: nat, hp: nat, s: State, outcomes: seq<Outcome>,
      rest: Rest)
    requires ValidGame(g) && LawfulRest(rest, g.leadFaint)
    requires forall i :: 0 <= i < |outcomes| ==> outcomes[i].p >= 0.0
    ensures Lawful(Attacked(g, turn, balls, hp, s, outcomes, rest), TotalChance(outcomes), balls as real, g.leadFaint)
    decreases |outcomes|
  {
    hide Scaled, Plus, FoeTurn, ValidGame, LawfulRest, Lawful;
    if outcomes == [] {
      ZeroLawful(balls as real, g.leadFaint);
    } else {
      var k, b := |outcomes| - 1, balls as real;
      var o := outcomes[k];
      AttackedLawful(g, turn, balls, hp, s, outcomes[..k], rest);
      var then_ := if o.damage >= hp then FOE_FAINTED else FoeTurn(g, turn, balls, hp - o.damage, s, rest);
      if o.damage < hp {
        FoeTurnLawful(g, turn, balls, hp - o.damage, s, rest);
      } else {
        FoeFaintedLawful(b, g.leadFaint);
      }
      ScaledLawful(then_, 1.0, b, g.leadFaint, o.p);
      var before := Attacked(g, turn, balls, hp, s, outcomes[..k], rest);
      PlusLawful(before, TotalChance(outcomes[..k]), Scaled(then_, o.p), 1.0 * o.p, b, g.leadFaint);
      assert outcomes == outcomes[..k] + [o];
      TotalChanceSnoc(outcomes[..k], o);
    }
  }

  lemma ThrowLawful(o: Outlook, balls: real, weight: real, p: real)
    requires Lawful(o, 1.0, balls - 1.0, weight) && balls >= 1.0 && IsChance(p)
    ensures Lawful(Plus(Scaled(CAUGHT, p), Scaled(Missed(o), 1.0 - p)), 1.0, balls, weight)
  {
    hide Scaled, Plus;
    assert Lawful(CAUGHT, 1.0, balls, weight);
    assert Lawful(Missed(o), 1.0, balls, weight);
    ScaledLawful(CAUGHT, 1.0, balls, weight, p);
    ScaledLawful(Missed(o), 1.0, balls, weight, 1.0 - p);
    PlusLawful(Scaled(CAUGHT, p), 1.0 * p, Scaled(Missed(o), 1.0 - p), 1.0 * (1.0 - p), balls, weight);
  }

  lemma {:induction false} ShareIsProduct(each: real, n: nat)
    ensures Share(each, n) == each * n as real
  {
    if n > 0 {
      ShareIsProduct(each, n - 1);
    }
  }

  lemma QuarterShare(p: real)
    ensures Share(p / 4.0, 4) == p
  {
    hide Share;
    ShareIsProduct(p / 4.0, 4);
  }

  lemma QLawful(g: Game, i: nat, turn: nat, balls: nat, hp: nat, s: State, rest: Rest)
    requires ValidGame(g) && LawfulRest(rest, g.leadFaint) && i < |g.effects|
    ensures Q(g, i, turn, balls, hp, s, rest).Some? ==>
              Lawful(Q(g, i, turn, balls, hp, s, rest).value, 1.0, balls as real, g.leadFaint)
  {
    hide Scaled, Plus, FoeTurn, LawfulRest, Lawful, Sleeps, Attacked;
    var b := balls as real;
    assert ValidEffect(g.effects[i]);
    match g.effects[i]
    case Run => ZeroLawful(b, g.leadFaint);
    case Throw =>
      if balls > 0 {
        FoeTurnLawful(g, turn, balls - 1, hp, s, rest);
        ThrowLawful(FoeTurn(g, turn, balls - 1, hp, s, rest), b, g.leadFaint, g.chance(hp, CatchX10(s)));
      }
    case Status(p, sleep) =>
      FoeTurnLawful(g, turn, balls, hp, s, rest);
      FoeTurnLawful(g, turn, balls, hp, Paralyzed, rest);
      var foe, par := FoeTurn(g, turn, balls, hp, s, rest), FoeTurn(g, turn, balls, hp, Paralyzed, rest);
      ScaledLawful(foe, 1.0, b, g.leadFaint, 1.0 - p);
      ScaledLawful(par, 1.0, b, g.leadFaint, p);
      SleepsLawful(g, turn, balls, hp, p / 4.0, SLEEP_ACTIONS, rest);
      var asleep := Sleeps(g, turn, balls, hp, p / 4.0, SLEEP_ACTIONS, rest);
      assert Share(p / 4.0, 4) == p by { QuarterShare(p); }
      PlusLawful(asleep, p, Scaled(foe, 1.0 - p), 1.0 * (1.0 - p), b, g.leadFaint);
      PlusLawful(Scaled(par, p), 1.0 * p, Scaled(foe, 1.0 - p), 1.0 * (1.0 - p), b, g.leadFaint);
    case Attack(outcomes) => AttackedLawful(g, turn, balls, hp, s, outcomes, rest);
  }

  lemma {:induction false} BestOfLawful(g: Game, n: nat, turn: nat, balls: nat, hp: nat, s: State, rest: Rest)
    requires ValidGame(g) && LawfulRest(rest, g.leadFaint) && n <= |g.effects|
    ensures Lawful(BestOf(g, n, turn, balls, hp, s, rest), 1.0, balls as real, g.leadFaint)
    decreases n
  {
    hide Q, ValidGame, LawfulRest, Lawful;
    if n == 0 {
      ZeroLawful(balls as real, g.leadFaint);
    } else {
      BestOfLawful(g, n - 1, turn, balls, hp, s, rest);
      QLawful(g, n - 1, turn, balls, hp, s, rest);
    }
  }

  /** At every state the chances are nonnegative and sum to at most one, the
      value is what it is defined to be, and no more balls are expected to be
      thrown than are held. */
  lemma {:induction false} BestIsLawful(g: Game, turn: nat, balls: nat, hp: nat, s: State)
    requires ValidGame(g)
    ensures Lawful(Best(g, turn, balls, hp, s), 1.0, balls as real, g.leadFaint)
    decreases MAX_TURNS - turn
  {
    hide ValidGame, Lawful, BestOf;
    if balls == 0 || turn >= MAX_TURNS {
      ZeroLawful(balls as real, g.leadFaint);
    } else {
      forall b: nat, h: nat, z: State
        ensures Lawful(NextBest(g, turn)(b, h, z), 1.0, b as real, g.leadFaint)
      {
        BestIsLawful(g, turn + 1, b, h, z);
      }
      BestOfLawful(g, |g.effects|, turn, balls, hp, s, NextBest(g, turn));
    }
  }

  // ---- Comparing two futures ----

  /** `hi` with `more` balls in hand is worth at least `lo`, wherever it starts. */
  ghost predicate Under(lo: Rest, hi: Rest, more: nat) {
    forall fewer: nat, balls: nat, hp: nat, s: State {:trigger lo(fewer, hp, s), hi(balls, hp, s)} ::
      balls == fewer + more ==> lo(fewer, hp, s).value <= hi(balls, hp, s).value
  }

  lemma PlusScaledMonotone(x: Outlook, y: Outlook, a: Outlook, b: Outlook, p: real)
    requires x.value <= y.value && a.value <= b.value && p >= 0.0
    ensures Plus(x, Scaled(a, p)).value <= Plus(y, Scaled(b, p)).value
  {
    Product(a.value, b.value, p);
  }

  lemma ScaledMonotone(a: Outlook, b: Outlook, p: real)
    requires a.value <= b.value && p >= 0.0
    ensures Scaled(a, p).value <= Scaled(b, p).value
  {
    Product(a.value, b.value, p);
  }

  lemma FoeTurnMonotone(g: Game, turn: nat, balls: nat, more: nat, hp: nat, s: State, lo: Rest, hi: Rest)
    requires ValidGame(g) && Under(lo, hi, more)
    ensures FoeTurn(g, turn, balls, hp, s, lo).value <= FoeTurn(g, turn, balls + more, hp, s, hi).value
  {
    hide Scaled, Plus;
    var h, z := Hazard(g, turn), AfterTurn(s);
    var fainted := Scaled(Outlook(-g.leadFaint, 0.0, 0.0, 1.0, 0.0), h);
    assert lo(balls, hp, z).value <= hi(balls + more, hp, z).value;
    PlusScaledMonotone(fainted, fainted, lo(balls, hp, z), hi(balls + more, hp, z), 1.0 - h);
  }

  lemma {:induction false} SleepsMonotone(g: Game, turn: nat, balls: nat, more: nat, hp: nat, each: real,
      actions: seq<nat>, lo: Rest, hi: Rest)
    requires ValidGame(g) && Under(lo, hi, more) && each >= 0.0
    ensures Sleeps(g, turn, balls, hp, each, actions, lo).value <= Sleeps(g, turn, balls + more, hp, each, actions,
        hi).value
    decreases |actions|
  {
    hide FoeTurn, ValidGame, Under, Scaled, Plus;
    if actions != [] {
      var k := |actions| - 1;
      var z := Asleep(actions[k] + 1);
      SleepsMonotone(g, turn, balls, more, hp, each, actions[..k], lo, hi);
      FoeTurnMonotone(g, turn, balls, more, hp, z, lo, hi);
      PlusScaledMonotone(
        Sleeps(g, turn, balls, hp, each, actions[..k], lo), Sleeps(g, turn, balls + more, hp, each, actions[..k], hi),
        FoeTurn(g, turn, balls, hp, z, lo), FoeTurn(g, turn, balls + more, hp, z, hi), each);
    }
  }

  lemma {:induction false} AttackedMonotone(g: Game, turn: nat, balls: nat, more: nat, hp: nat, s: State,
      outcomes: seq<Outcome>, lo: Rest, hi: Rest)
    requires ValidGame(g) && Under(lo, hi, more)
    requires forall i :: 0 <= i < |outcomes| ==> outcomes[i].p >= 0.0
    ensures Attacked(g, turn, balls, hp, s, outcomes, lo).value <= Attacked(g, turn, balls + more, hp, s, outcomes,
        hi).value
    decreases |outcomes|
  {
    hide FoeTurn, ValidGame, Under, Scaled, Plus;
    if outcomes != [] {
      var k := |outcomes| - 1;
      var o := outcomes[k];
      AttackedMonotone(g, turn, balls, more, hp, s, outcomes[..k], lo, hi);
      var worse := if o.damage >= hp then FOE_FAINTED else FoeTurn(g, turn, balls, hp - o.damage, s, lo);
      var better := if o.damage >= hp then FOE_FAINTED else FoeTurn(g, turn, balls + more, hp - o.damage, s, hi);
      if o.damage < hp {
        FoeTurnMonotone(g, turn, balls, more, hp - o.damage, s, lo, hi);
      }
      PlusScaledMonotone(
        Attacked(g, turn, balls, hp, s, outcomes[..k], lo), Attacked(g, turn, balls + more, hp, s, outcomes[..k], hi),
        worse, better, o.p);
    }
  }

  /** A choice possible with fewer balls stays possible, and is worth no less
      when the future is. */
  lemma QMonotone(g: Game, i: nat, turn: nat, balls: nat, more: nat, hp: nat, s: State, lo: Rest, hi: Rest)
    requires ValidGame(g) && Under(lo, hi, more) && i < |g.effects|
    requires Q(g, i, turn, balls, hp, s, lo).Some?
    ensures Q(g, i, turn, balls + more, hp, s, hi).Some?
    ensures Q(g, i, turn, balls, hp, s, lo).value.value <= Q(g, i, turn, balls + more, hp, s, hi).value.value
  {
    hide FoeTurn, Under, Sleeps, Attacked, Scaled, Plus;
    assert ValidEffect(g.effects[i]);
    match g.effects[i]
    case Run =>
    case Throw =>
      var p := g.chance(hp, CatchX10(s));
      FoeTurnMonotone(g, turn, balls - 1, more, hp, s, lo, hi);
      PlusScaledMonotone(Scaled(CAUGHT, p), Scaled(CAUGHT, p), Missed(FoeTurn(g, turn, balls - 1, hp, s, lo)),
                         Missed(FoeTurn(g, turn, balls - 1 + more, hp, s, hi)), 1.0 - p);
    case Status(p, sleep) =>
      var missed, missed' := FoeTurn(g, turn, balls, hp, s, lo), FoeTurn(g, turn, balls + more, hp, s, hi);
      FoeTurnMonotone(g, turn, balls, more, hp, s, lo, hi);
      if sleep {
        SleepsMonotone(g, turn, balls, more, hp, p / 4.0, SLEEP_ACTIONS, lo, hi);
        PlusScaledMonotone(
          Sleeps(g, turn, balls, hp, p / 4.0, SLEEP_ACTIONS, lo),
          Sleeps(g, turn, balls + more, hp, p / 4.0, SLEEP_ACTIONS, hi), missed, missed', 1.0 - p);
      } else {
        FoeTurnMonotone(g, turn, balls, more, hp, Paralyzed, lo, hi);
        ScaledMonotone(FoeTurn(g, turn, balls, hp, Paralyzed, lo), FoeTurn(g, turn, balls + more, hp, Paralyzed, hi),
            p);
        PlusScaledMonotone(
          Scaled(FoeTurn(g, turn, balls, hp, Paralyzed, lo), p),
          Scaled(FoeTurn(g, turn, balls + more, hp, Paralyzed, hi), p), missed, missed', 1.0 - p);
      }
    case Attack(outcomes) => AttackedMonotone(g, turn, balls, more, hp, s, outcomes, lo, hi);
  }

  /** Choice `i` comes to `o`, worth more than giving up or any choice before it. */
  predicate IsFirst(g: Game, i: nat, turn: nat, balls: nat, hp: nat, s: State, rest: Rest, o: Outlook)
    requires i < |g.effects|
  {
    && Q(g, i, turn, balls, hp, s, rest) == Some(o) && o.value > 0.0
    && forall j: nat :: j < i && Q(g, j, turn, balls, hp, s, rest).Some? ==>
         Q(g, j, turn, balls, hp, s, rest).value.value < o.value
  }

  /** Nothing possible among the first `n` choices, giving up included, beats
      the best of them. It is giving up, or the first of the choices worth as
      much, worth more than giving up. */
  lemma {:induction false} BestOfIsBest(g: Game, n: nat, turn: nat, balls: nat, hp: nat, s: State, rest: Rest)
    requires n <= |g.effects|
    ensures BestOf(g, n, turn, balls, hp, s, rest).value >= 0.0
    ensures forall i :: 0 <= i < n && Q(g, i, turn, balls, hp, s, rest).Some? ==>
              Q(g, i, turn, balls, hp, s, rest).value.value <= BestOf(g, n, turn, balls, hp, s, rest).value
    ensures BestOf(g, n, turn, balls, hp, s, rest) == ZERO
         || exists i :: 0 <= i < n && IsFirst(g, i, turn, balls, hp, s, rest, BestOf(g, n, turn, balls, hp, s, rest))
    decreases n
  {
    hide Q;
    if n > 0 {
      BestOfIsBest(g, n - 1, turn, balls, hp, s, rest);
      var q, best := Q(g, n - 1, turn, balls, hp, s, rest), BestOf(g, n, turn, balls, hp, s, rest);
      if q.Some? && q.value.value > BestOf(g, n - 1, turn, balls, hp, s, rest).value {
        assert IsFirst(g, n - 1, turn, balls, hp, s, rest, best);
      } else if best != ZERO {
        var i :| 0 <= i < n - 1 && IsFirst(g, i, turn, balls, hp, s, rest, best);
      }
    }
  }

  lemma {:induction false} BestOfMonotone(g: Game, n: nat, turn: nat, balls: nat, more: nat, hp: nat, s: State,
      lo: Rest, hi: Rest)
    requires ValidGame(g) && Under(lo, hi, more) && n <= |g.effects|
    ensures BestOf(g, n, turn, balls, hp, s, lo).value <= BestOf(g, n, turn, balls + more, hp, s, hi).value
    decreases n
  {
    hide Q, ValidGame, Under;
    if n > 0 {
      BestOfMonotone(g, n - 1, turn, balls, more, hp, s, lo, hi);
      if Q(g, n - 1, turn, balls, hp, s, lo).Some? {
        QMonotone(g, n - 1, turn, balls, more, hp, s, lo, hi);
      }
    }
  }

  /** More balls are never worth less. */
  lemma {:induction false} MoreBallsAreWorthNoLess(g: Game, turn: nat, balls: nat, more: nat, hp: nat, s: State)
    requires ValidGame(g)
    ensures Best(g, turn, balls, hp, s).value <= Best(g, turn, balls + more, hp, s).value
    decreases MAX_TURNS - turn, 0
  {
    hide ValidGame, BestOf, Under, NextBest;
    if turn < MAX_TURNS && balls + more > 0 {
      if balls == 0 {
        BestOfIsBest(g, |g.effects|, turn, more, hp, s, NextBest(g, turn));
      } else {
        NextBestIsUnder(g, turn, more);
        BestOfMonotone(g, |g.effects|, turn, balls, more, hp, s, NextBest(g, turn), NextBest(g, turn));
      }
    }
  }

  lemma {:induction false} NextBestIsUnder(g: Game, turn: nat, more: nat)
    requires ValidGame(g) && turn < MAX_TURNS
    ensures Under(NextBest(g, turn), NextBest(g, turn), more)
    decreases MAX_TURNS - turn - 1, 1
  {
    hide ValidGame, Best, NextBest;
    var next := NextBest(g, turn);
    forall b: nat, richer: nat, h: nat, z: State | richer == b + more
      ensures next(b, h, z).value <= next(richer, h, z).value
    {
      MoreBallsAreWorthNoLess(g, turn + 1, b, more, h, z);
      NextBestAt(g, turn, b, h, z);
      NextBestAt(g, turn, richer, h, z);
    }
  }

  lemma NextBestAt(g: Game, turn: nat, balls: nat, hp: nat, s: State)
    requires turn < MAX_TURNS
    ensures NextBest(g, turn)(balls, hp, s) == Best(g, turn + 1, balls, hp, s)
  {
    hide Best;
  }

  // ---- Every policy ----

  datatype Node = Node(balls: nat, hp: nat, state: State)

  /** A policy picks a choice from all it has seen; a choice that is not there
      or not possible gives up. */
  type Policy = seq<Node> -> nat

  /** The outlook of following `pol` from the last node of `seen`. */
  function Follow(g: Game, pol: Policy, turn: nat, seen: seq<Node>): Outlook
    requires seen != []
    decreases MAX_TURNS - turn, 0
  {
    var now := seen[|seen| - 1];
    if now.balls == 0 || turn >= MAX_TURNS then ZERO
    else
      var i := pol(seen);
      if i >= |g.effects| then ZERO
      else
        match Q(g, i, turn, now.balls, now.hp, now.state, NextFollow(g, pol, turn, seen))
        case None => ZERO
        case Some(o) => o
  }

  function NextFollow(g: Game, pol: Policy, turn: nat, seen: seq<Node>): Rest
    requires turn < MAX_TURNS
    decreases MAX_TURNS - turn - 1, 1
  {
    (balls: nat, hp: nat, s: State) => Follow(g, pol, turn + 1, seen + [Node(balls, hp, s)])
  }

  /** No policy, however it uses what it has seen, beats the solver's value. */
  lemma {:induction false} NoPolicyBeatsBest(g: Game, pol: Policy, turn: nat, seen: seq<Node>)
    requires ValidGame(g) && seen != []
    ensures var now := seen[|seen| - 1];
      Follow(g, pol, turn, seen).value <= Best(g, turn, now.balls, now.hp, now.state).value
    decreases MAX_TURNS - turn, 0
  {
    hide ValidGame, BestOf, Q, Under, NextBest, NextFollow;
    var now := seen[|seen| - 1];
    if now.balls > 0 && turn < MAX_TURNS {
      var lo, hi, i := NextFollow(g, pol, turn, seen), NextBest(g, turn), pol(seen);
      BestOfIsBest(g, |g.effects|, turn, now.balls, now.hp, now.state, hi);
      if i < |g.effects| && Q(g, i, turn, now.balls, now.hp, now.state, lo).Some? {
        NextFollowIsUnder(g, pol, turn, seen);
        QMonotone(g, i, turn, now.balls, 0, now.hp, now.state, lo, hi);
      }
    }
  }

  lemma {:induction false} NextFollowIsUnder(g: Game, pol: Policy, turn: nat, seen: seq<Node>)
    requires ValidGame(g) && turn < MAX_TURNS
    ensures Under(NextFollow(g, pol, turn, seen), NextBest(g, turn), 0)
    decreases MAX_TURNS - turn - 1, 1
  {
    hide ValidGame, Best, Follow;
    forall b: nat, h: nat, z: State
      ensures NextFollow(g, pol, turn, seen)(b, h, z).value <= NextBest(g, turn)(b, h, z).value
    {
      NoPolicyBeatsBest(g, pol, turn + 1, seen + [Node(b, h, z)]);
    }
  }

  // ---- A policy that attains the value ----

  /** The first choice worth what the best is worth; the number of choices,
      that is giving up, when none is. */
  function BestChoice(g: Game, n: nat, turn: nat, balls: nat, hp: nat, s: State, rest: Rest): (i: nat)
    requires n <= |g.effects|
    decreases n
  {
    if n == 0 then |g.effects|
    else
      match Q(g, n - 1, turn, balls, hp, s, rest)
      case None => BestChoice(g, n - 1, turn, balls, hp, s, rest)
      case Some(b) =>
        if b.value > BestOf(g, n - 1, turn, balls, hp, s, rest).value then n - 1
        else BestChoice(g, n - 1, turn, balls, hp, s, rest)
  }

  lemma {:induction false} BestChoiceAttains(g: Game, n: nat, turn: nat, balls: nat, hp: nat, s: State, rest: Rest)
    requires n <= |g.effects|
    ensures var i := BestChoice(g, n, turn, balls, hp, s, rest);
      if i < |g.effects| then Q(g, i, turn, balls, hp, s, rest) == Some(BestOf(g, n, turn, balls, hp, s, rest))
      else BestOf(g, n, turn, balls, hp, s, rest) == ZERO
    decreases n
  {
    hide Q;
    if n > 0 {
      BestChoiceAttains(g, n - 1, turn, balls, hp, s, rest);
    }
  }

  /** The policy the solver plays when `seen` starts on turn `first`. */
  function Greedy(g: Game, first: nat): Policy {
    (seen: seq<Node>) =>
      if seen == [] || first + |seen| - 1 >= MAX_TURNS then |g.effects|
      else
        var now, turn := seen[|seen| - 1], first + |seen| - 1;
        BestChoice(g, |g.effects|, turn, now.balls, now.hp, now.state, NextBest(g, turn))
  }

  ghost predicate Same(a: Rest, b: Rest) {
    forall balls: nat, hp: nat, s: State :: a(balls, hp, s) == b(balls, hp, s)
  }

  lemma {:induction false} SleepsSame(g: Game, turn: nat, balls: nat, hp: nat, each: real, actions: seq<nat>,
      a: Rest, b: Rest)
    requires Same(a, b)
    ensures Sleeps(g, turn, balls, hp, each, actions, a) == Sleeps(g, turn, balls, hp, each, actions, b)
    decreases |actions|
  {
    hide Scaled, Plus;
    if actions != [] {
      SleepsSame(g, turn, balls, hp, each, actions[..|actions| - 1], a, b);
    }
  }

  lemma {:induction false} AttackedSame(g: Game, turn: nat, balls: nat, hp: nat, s: State, outcomes: seq<Outcome>,
      a: Rest, b: Rest)
    requires Same(a, b)
    ensures Attacked(g, turn, balls, hp, s, outcomes, a) == Attacked(g, turn, balls, hp, s, outcomes, b)
    decreases |outcomes|
  {
    hide Scaled, Plus;
    if outcomes != [] {
      AttackedSame(g, turn, balls, hp, s, outcomes[..|outcomes| - 1], a, b);
    }
  }

  lemma QSame(g: Game, i: nat, turn: nat, balls: nat, hp: nat, s: State, a: Rest, b: Rest)
    requires Same(a, b) && i < |g.effects|
    ensures Q(g, i, turn, balls, hp, s, a) == Q(g, i, turn, balls, hp, s, b)
  {
    hide Scaled, Plus, Sleeps, Attacked;
    match g.effects[i]
    case Run =>
    case Throw =>
    case Status(p, _) => SleepsSame(g, turn, balls, hp, p / 4.0, SLEEP_ACTIONS, a, b);
    case Attack(outcomes) => AttackedSame(g, turn, balls, hp, s, outcomes, a, b);
  }

  /** The solver's outlook is the outlook of the policy it plays, from every
      state and whatever was seen before. */
  lemma {:induction false} GreedyAttainsBest(g: Game, first: nat, turn: nat, seen: seq<Node>)
    requires seen != [] && turn == first + |seen| - 1
    ensures var now := seen[|seen| - 1];
      Follow(g, Greedy(g, first), turn, seen) == Best(g, turn, now.balls, now.hp, now.state)
    decreases MAX_TURNS - turn, 0
  {
    hide BestOf, Q, Same, NextBest, NextFollow, BestChoice;
    var now := seen[|seen| - 1];
    if now.balls > 0 && turn < MAX_TURNS {
      var i := BestChoice(g, |g.effects|, turn, now.balls, now.hp, now.state, NextBest(g, turn));
      assert Greedy(g, first)(seen) == i;
      BestChoiceAttains(g, |g.effects|, turn, now.balls, now.hp, now.state, NextBest(g, turn));
      if i < |g.effects| {
        NextFollowIsNextBest(g, first, turn, seen);
        QSame(g, i, turn, now.balls, now.hp, now.state, NextFollow(g, Greedy(g, first), turn, seen), NextBest(g, turn));
      }
    }
  }

  lemma {:induction false} NextFollowIsNextBest(g: Game, first: nat, turn: nat, seen: seq<Node>)
    requires seen != [] && turn == first + |seen| - 1 && turn < MAX_TURNS
    ensures Same(NextFollow(g, Greedy(g, first), turn, seen), NextBest(g, turn))
    decreases MAX_TURNS - turn - 1, 1
  {
    hide Best, Follow, Greedy;
    forall b: nat, h: nat, z: State
      ensures NextFollow(g, Greedy(g, first), turn, seen)(b, h, z) == NextBest(g, turn)(b, h, z)
    {
      GreedyAttainsBest(g, first, turn + 1, seen + [Node(b, h, z)]);
    }
  }
}
