/** The belief over scenarios, the damage outcomes that feed them, and the
    choice that is best on average. */
module CatchBelief {
  import opened CatchOdds
  import opened CatchSolver
  import opened Wrappers

  // ---- Damage outcomes ----

  /** The chance listed for a damage. */
  function ChanceOf(outcomes: seq<Outcome>, damage: nat): real
    decreases |outcomes|
  {
    if outcomes == [] then 0.0
    else ChanceOf(outcomes[..|outcomes| - 1], damage) +
         if outcomes[|outcomes| - 1].damage == damage then outcomes[|outcomes| - 1].p else 0.0
  }

  predicate Distinct(outcomes: seq<Outcome>) {
    forall i, j :: 0 <= i < j < |outcomes| ==> outcomes[i].damage != outcomes[j].damage
  }

  predicate Nonnegative(outcomes: seq<Outcome>) {
    forall i :: 0 <= i < |outcomes| ==> outcomes[i].p >= 0.0
  }

  lemma {:induction false} TotalChanceAt(outcomes: seq<Outcome>, k: nat, more: real)
    requires k < |outcomes|
    ensures var o := outcomes[k];
      TotalChance(outcomes[k := Outcome(o.damage, o.p + more)]) == TotalChance(outcomes) + more
    decreases |outcomes|
  {
    var o := outcomes[k];
    var after := outcomes[k := Outcome(o.damage, o.p + more)];
    if k == 0 {
      assert after[1..] == outcomes[1..];
    } else {
      assert after[1..] == outcomes[1..][k - 1 := Outcome(o.damage, o.p + more)];
      TotalChanceAt(outcomes[1..], k - 1, more);
    }
  }

  lemma {:induction false} ChanceOfAt(outcomes: seq<Outcome>, k: nat, more: real, damage: nat)
    requires k < |outcomes|
    ensures var o := outcomes[k];
      ChanceOf(outcomes[k := Outcome(o.damage, o.p + more)], damage) == ChanceOf(outcomes,
          damage) + if o.damage == damage then more else 0.0
    decreases |outcomes|
  {
    var n, o := |outcomes| - 1, outcomes[k];
    var after := outcomes[k := Outcome(o.damage, o.p + more)];
    if k == n {
      assert after[..n] == outcomes[..n];
    } else {
      assert after[..n] == outcomes[..n][k := Outcome(o.damage, o.p + more)];
      ChanceOfAt(outcomes[..n], k, more, damage);
    }
  }

  /** Adds a chance to a damage, in its entry when it has one. */
  method AddOutcome(out: seq<Outcome>, damage: nat, p: real) returns (r: seq<Outcome>)
    requires Distinct(out) && Nonnegative(out) && p >= 0.0
    ensures Distinct(r) && Nonnegative(r)
    ensures TotalChance(r) == TotalChance(out) + p
    ensures forall d :: ChanceOf(r, d) == ChanceOf(out, d) + if d == damage then p else 0.0
  {
    hide TotalChance, ChanceOf;
    var k := 0;
    while k < |out| && out[k].damage != damage
      invariant 0 <= k <= |out|
      invariant forall j :: 0 <= j < k ==> out[j].damage != damage
    {
      k := k + 1;
    }
    if k < |out| {
      r := out[k := Outcome(damage, out[k].p + p)];
      TotalChanceAt(out, k, p);
      forall d ensures ChanceOf(r, d) == ChanceOf(out, d) + if d == damage then p else 0.0 {
        ChanceOfAt(out, k, p, d);
      }
    } else {
      r := out + [Outcome(damage, p)];
      TotalChanceSnoc(out, Outcome(damage, p));
      forall d ensures ChanceOf(r, d) == ChanceOf(out, d) + if d == damage then p else 0.0 {
        ChanceOfSnoc(out, Outcome(damage, p), d);
      }
    }
  }

  lemma ChanceOfSnoc(out: seq<Outcome>, o: Outcome, d: nat)
    ensures ChanceOf(out + [o], d) == ChanceOf(out, d) + if o.damage == d then o.p else 0.0
  {
    assert (out + [o])[..|out|] == out;
  }

  /** Damage in HP units, rounded. */
  function Units(damage: nat, unit: nat): nat
    requires unit > 0
  {
    (damage + unit / 2) / unit
  }

  /** Of all whole numbers of units this is the nearest; of two as near, the
      greater. */
  lemma UnitsAreTheNearest(damage: nat, unit: nat, n: nat)
    requires unit > 0
    ensures Units(damage, unit) == n <==> 2 * (n * unit) - unit <= 2 * damage < 2 * (n * unit) + unit
  {
    var a := damage + unit / 2;
    DividesTo(a, unit, n);
    assert (n + 1) * unit == n * unit + unit;
  }

  lemma DividesTo(a: nat, b: nat, n: nat)
    requires b > 0
    ensures a / b == n <==> n * b <= a < (n + 1) * b
  {
    var q, r := a / b, a % b;
    assert a == q * b + r && (q + 1) * b == q * b + b;
    if q < n {
      MulMonotone(q + 1, n, b);
    } else if n < q {
      MulMonotone(n + 1, q, b);
    }
  }

  /** How many of the first `n` rolls deal a damage. */
  function Count(rolls: seq<nat>, unit: nat, n: nat, damage: nat): nat
    requires n <= |rolls| && unit > 0
  {
    if n == 0 then 0 else Count(rolls, unit, n - 1, damage) + if Units(rolls[n - 1], unit) == damage then 1 else 0
  }

  function NormalChance(hitChance: real): real { hitChance * (1.0 - 1.0 / 16.0) / 16.0 }

  function CriticalChance(hitChance: real): real { hitChance * (1.0 / 16.0) / 16.0 }

  lemma RollsSumToTheHitChance(hitChance: real)
    requires IsChance(hitChance)
    ensures NormalChance(hitChance) >= 0.0 && CriticalChance(hitChance) >= 0.0
    ensures Share(NormalChance(hitChance), 16) + Share(CriticalChance(hitChance), 16) == hitChance
  {
    ShareIsProduct(NormalChance(hitChance), 16);
    ShareIsProduct(CriticalChance(hitChance), 16);
  }

  /** A normal roll is fifteen times as likely as a critical one, and all
      thirty-two together make up the hit. */
  lemma RollsAreThat(hitChance: real, n: nat, c: nat)
    ensures Share(NormalChance(hitChance), n) + Share(CriticalChance(hitChance), c)
         == hitChance * (15 * n + c) as real / 256.0
  {
    ShareIsProduct(NormalChance(hitChance), n);
    ShareIsProduct(CriticalChance(hitChance), c);
    assert NormalChance(hitChance) == hitChance * 15.0 / 256.0 && CriticalChance(hitChance) == hitChance / 256.0;
    ThatMany(hitChance, n as real, c as real);
  }

  lemma ThatMany(h: real, n: real, c: real)
    ensures h * 15.0 / 256.0 * n + h / 256.0 * c == h * (15.0 * n + c) / 256.0
  {
    assert h * (15.0 * n + c) == h * 15.0 * n + h * c;
  }

  /** A damage's chance: of 256 equal parts of a hit, fifteen for each normal roll
      that deals it and one for each critical one; a miss deals none. */
  function DamageChance(normal: seq<nat>, critical: seq<nat>, hitChance: real, unit: nat, d: nat): real
    requires |normal| == 16 && |critical| == 16 && unit > 0
  {
    hitChance * (15 * Count(normal, unit, 16, d) + Count(critical, unit, 16, d)) as real / 256.0
    + if d == 0 then 1.0 - hitChance else 0.0
  }

  /** The same, roll by roll. */
  function RollsChance(normal: seq<nat>, critical: seq<nat>, hitChance: real, unit: nat, d: nat): real
    requires |normal| == 16 && |critical| == 16 && unit > 0
  {
    Share(NormalChance(hitChance), Count(normal, unit, 16, d))
    + Share(CriticalChance(hitChance), Count(critical, unit, 16, d)) + if d == 0 then 1.0 - hitChance else 0.0
  }

  lemma ChancesAreThat(normal: seq<nat>, critical: seq<nat>, hitChance: real, unit: nat)
    requires |normal| == 16 && |critical| == 16 && unit > 0
    ensures forall d ::
      RollsChance(normal, critical, hitChance, unit, d) == DamageChance(normal, critical, hitChance, unit, d)
  {
    hide Count, Share, NormalChance, CriticalChance;
    forall d
      ensures RollsChance(normal, critical, hitChance, unit, d) == DamageChance(normal, critical, hitChance, unit, d)
    {
      RollsAreThat(hitChance, Count(normal, unit, 16, d), Count(critical, unit, 16, d));
    }
  }

  /** An attack's damages: one in sixteen of its rolls is critical, and a miss
      deals none. They sum to one, and each damage has the chance of its rolls. */
  method Outcomes(normal: seq<nat>, critical: seq<nat>, hitChance: real, unit: nat) returns (out: seq<Outcome>)
    requires |normal| == 16 && |critical| == 16 && IsChance(hitChance) && unit > 0
    ensures ValidEffect(Attack(out)) && Distinct(out)
    ensures forall d :: ChanceOf(out, d) == DamageChance(normal, critical, hitChance, unit, d)
  {
    hide TotalChance, ChanceOf, Units, NormalChance, CriticalChance, DamageChance, Distinct, Nonnegative;
    var each, eachCrit := NormalChance(hitChance), CriticalChance(hitChance);
    RollsSumToTheHitChance(hitChance);
    out := [];
    NoOutcomes();
    for i := 0 to 16
      invariant Distinct(out) && Nonnegative(out) && TotalChance(out) == Share(each, i)
      invariant forall d :: ChanceOf(out, d) == Share(each, Count(normal, unit, i, d))
    {
      out := AddOutcome(out, Units(normal[i], unit), each);
    }
    for i := 0 to 16
      invariant Distinct(out) && Nonnegative(out) && TotalChance(out) == Share(each, 16) + Share(eachCrit, i)
      invariant forall d :: ChanceOf(out, d) == Share(each, Count(normal, unit, 16, d)) + Share(eachCrit,
          Count(critical, unit, i, d))
    {
      out := AddOutcome(out, Units(critical[i], unit), eachCrit);
    }
    out := AddOutcome(out, 0, 1.0 - hitChance);
    OutcomesAreValid(out);
    assert forall d :: ChanceOf(out, d) == RollsChance(normal, critical, hitChance, unit, d);
    ChancesAreThat(normal, critical, hitChance, unit);
  }

  lemma OutcomesAreValid(out: seq<Outcome>)
    requires Nonnegative(out) && TotalChance(out) == 1.0
    ensures ValidEffect(Attack(out))
  {}

  lemma NoOutcomes()
    ensures TotalChance([]) == 0.0 && Distinct([]) && Nonnegative([])
    ensures forall d :: ChanceOf([], d) == 0.0
  {}

  // ---- What the HUD allows ----

  const BAR_PIXELS: nat := 48

  function Pixel(hp: nat, max: nat): nat
    requires max > 0
  {
    var filled := hp * BAR_PIXELS / max;
    if filled < 1 then 1 else filled
  }

  function Seen(perMille: nat): nat {
    var pixels := (perMille * BAR_PIXELS + 500) / 1000;
    if pixels < 1 then 1 else if pixels > BAR_PIXELS then BAR_PIXELS else pixels
  }

  function HpsShowing(max: nat, seen: nat, n: nat): seq<nat>
    requires max > 0
  {
    if n == 0 then []
    else HpsShowing(max, seen, n - 1) + if Pixel(n, max) == seen then [n] else []
  }

  lemma {:induction false} HpsShowingAreThose(max: nat, seen: nat, n: nat, hp: nat)
    requires max > 0
    ensures hp in HpsShowing(max, seen, n) <==> 1 <= hp <= n && Pixel(hp, max) == seen
  {
    hide Pixel;
    if n > 0 {
      HpsShowingAreThose(max, seen, n - 1, hp);
    }
  }

  function Clamp(x: nat, max: nat): nat {
    if x < 1 then 1 else if x > max then max else x
  }

  /** Every HP the bar allows. */
  function BarHps(max: nat, perMille: nat): (hps: seq<nat>)
    requires max > 0
    ensures hps != []
  {
    var hps := HpsShowing(max, Seen(perMille), max);
    if hps == [] then [Clamp(max * perMille / 1000, max)] else hps
  }

  lemma BarHpsAreAlive(max: nat, perMille: nat, hp: nat)
    requires max > 0 && hp in BarHps(max, perMille)
    ensures 1 <= hp <= max
  {
    hide Pixel, Seen, HpsShowing;
    HpsShowingAreThose(max, Seen(perMille), max, hp);
  }

  /** The reading is within half a pixel of `p` filled ones, or past it at an end
      of the bar. */
  predicate ReadsAs(perMille: nat, p: nat) {
    && (p > 1 ==> p * 1000 - 500 <= perMille * 48)
    && (p < 48 ==> perMille * 48 < p * 1000 + 500)
  }

  /** The bar fills a pixel for each whole forty-eighth of the maximum, and one
      for less. */
  lemma PixelsAreWholeShares(hp: nat, max: nat, p: nat)
    requires max > 0
    ensures Pixel(hp, max) == p <==> 1 <= p && (p > 1 ==> p * max <= hp * 48) && hp * 48 < (p + 1) * max
  {
    DividesTo(hp * 48, max, p);
    DividesTo(hp * 48, max, 0);
    assert 1 * max == max && 2 * max == max + max;
  }

  lemma SeenIsTheNearest(perMille: nat, p: nat)
    requires 1 <= p <= BAR_PIXELS
    ensures Seen(perMille) == p <==> ReadsAs(perMille, p)
  {}

  /** Some HP would read so. */
  predicate CanRead(max: nat, perMille: nat)
    requires max > 0
  {
    exists hp :: 1 <= hp <= max && ReadsAs(perMille, Pixel(hp, max))
  }

  /** A reading leaves the true HP in the belief exactly when it is within half a
      pixel of what the bar shows for it; only a reading no HP gives is taken for
      its share of the maximum. */
  lemma TrueHpIsBelieved(max: nat, hp: nat, perMille: nat)
    requires 1 <= hp <= max
    ensures CanRead(max, perMille) ==> (hp in BarHps(max, perMille) <==> ReadsAs(perMille, Pixel(hp, max)))
    ensures !CanRead(max, perMille) ==> (hp in BarHps(max, perMille) <==> hp == Clamp(max * perMille / 1000, max))
  {
    hide Seen, ReadsAs, Pixel;
    var shown := HpsShowing(max, Seen(perMille), max);
    forall h | 1 <= h <= max ensures h in shown <==> ReadsAs(perMille, Pixel(h, max)) {
      PixelIsOnTheBar(h, max);
      SeenIsTheNearest(perMille, Pixel(h, max));
      HpsShowingAreThose(max, Seen(perMille), max, h);
    }
    if shown != [] {
      HpsShowingAreThose(max, Seen(perMille), max, shown[0]);
      assert shown[0] in shown;
    }
  }

  lemma PixelIsOnTheBar(hp: nat, max: nat)
    requires 1 <= hp <= max
    ensures 1 <= Pixel(hp, max) <= BAR_PIXELS
  {
    FillIsAtMostTheBar(hp, max);
  }

  lemma FillIsAtMostTheBar(hp: nat, max: nat)
    requires 1 <= hp <= max
    ensures hp * BAR_PIXELS / max <= BAR_PIXELS
  {
    var q := hp * BAR_PIXELS / max;
    if q > BAR_PIXELS {
      MulMonotone(BAR_PIXELS + 1, q, max);
    }
  }

  lemma MulMonotone(a: int, b: int, c: nat)
    requires a <= b
    ensures a * c <= b * c
  {
  }

  datatype FoeStatus = NoStatus | ParalyzedFoe | AsleepFoe

  function StillAsleep(actions: seq<nat>, asleepFor: nat): (states: seq<State>)
    requires forall i :: 0 <= i < |actions| ==> actions[i] <= 4
    ensures forall i :: 0 <= i < |states| ==> states[i].Asleep? && Reachable(states[i])
    decreases |actions|
  {
    if actions == [] then []
    else (if actions[0] > asleepFor then [Asleep(actions[0] - asleepFor)] else []) + StillAsleep(actions[1..],
        asleepFor)
  }

  /** The statuses the foe may have: how long a sleeping foe may sleep on. */
  function States(status: FoeStatus, asleepFor: nat): (states: seq<State>)
    ensures states != []
    ensures forall i :: 0 <= i < |states| ==> Reachable(states[i])
  {
    match status
    case NoStatus => [Awake]
    case ParalyzedFoe => [Paralyzed]
    case AsleepFoe =>
      var left := StillAsleep(SLEEP_ACTIONS, asleepFor);
      if left == [] then [Asleep(1)] else left
  }

  lemma {:induction false} StillAsleepAre(actions: seq<nat>, asleepFor: nat, left: nat)
    requires forall i :: 0 <= i < |actions| ==> actions[i] <= 4
    ensures Asleep(left) in StillAsleep(actions, asleepFor) <==> left > 0 && left + asleepFor in actions
    decreases |actions|
  {
    if actions != [] {
      StillAsleepAre(actions[1..], asleepFor, left);
    }
  }

  /** A foe seen asleep for a while sleeps on for what is left of one to four
      actions, and for one when nothing should be left. */
  lemma SleepersSleepOn(asleepFor: nat, left: nat)
    ensures Asleep(left) in States(AsleepFoe, asleepFor) <==>
      if asleepFor < 4 then 1 <= left <= 4 - asleepFor else left == 1
  {
    hide StillAsleep;
    var all := StillAsleep(SLEEP_ACTIONS, asleepFor);
    StillAsleepAre(SLEEP_ACTIONS, asleepFor, left);
    StillAsleepAre(SLEEP_ACTIONS, asleepFor, 1);
    if asleepFor >= 4 && all != [] {
      assert all[0] == Asleep(all[0].n);
      StillAsleepAre(SLEEP_ACTIONS, asleepFor, all[0].n);
    }
  }

  // ---- The belief ----

  datatype Entry = Entry(w: real, scenario: nat, hp: nat, state: State)

  function Weight(belief: seq<Entry>): real
    decreases |belief|
  {
    if belief == [] then 0.0 else Weight(belief[..|belief| - 1]) + belief[|belief| - 1].w
  }

  lemma WeightSnoc(belief: seq<Entry>, e: Entry)
    ensures Weight(belief + [e]) == Weight(belief) + e.w
  {
    assert (belief + [e])[..|belief|] == belief;
  }

  predicate ValidBelief(belief: seq<Entry>, scenarios: nat) {
    forall i :: 0 <= i < |belief| ==> belief[i].w >= 0.0 && belief[i].scenario < scenarios && Reachable(belief[i].state)
  }

  /** The foe is believed free of a status, or believed to have one. */
  predicate OneStatus(belief: seq<Entry>) {
    forall i, j :: 0 <= i < |belief| && 0 <= j < |belief| ==> (belief[i].state.Awake? <==> belief[j].state.Awake?)
  }

  function DivCeil(a: nat, b: nat): nat
    requires b > 0
  {
    (a + b - 1) / b
  }

  /** HP in units is rounded up. */
  lemma UnitsCoverTheHp(a: nat, b: nat, n: nat)
    requires b > 0
    ensures DivCeil(a, b) == n <==> a <= n * b < a + b
  {
    DividesTo(a + b - 1, b, n);
    assert (n + 1) * b == n * b + b;
  }

  /** One scenario: `chance` and `unit` apart, all that varies is its max HP. */
  datatype Sample = Sample(maxHp: nat, unit: nat)

  predicate ValidSamples(samples: seq<Sample>) {
    samples != [] && forall i :: 0 <= i < |samples| ==> samples[i].maxHp > 0 && samples[i].unit > 0
  }

  /** The weight of each of a scenario's HPs and statuses. */
  function CellWeight(scenarios: nat, hps: nat, states: nat): real
    requires scenarios > 0 && hps > 0 && states > 0
  {
    1.0 / (scenarios * hps * states) as real
  }

  /** The entries of scenario `k`, HP by HP and status by status. */
  function Cells(samples: seq<Sample>, k: nat, perMille: nat, states: seq<State>): (cells: seq<Entry>)
    requires ValidSamples(samples) && states != [] && k < |samples|
    ensures |cells| == |BarHps(samples[k].maxHp, perMille)| * |states|
  {
    var hps := BarHps(samples[k].maxHp, perMille);
    var w := CellWeight(|samples|, |hps|, |states|);
    seq(|hps| * |states|, c requires 0 <= c < |hps| * |states| =>
      CellIndex(|hps|, |states|, c);
      Entry(w, k, DivCeil(hps[c / |states|], samples[k].unit), states[c % |states|]))
  }

  lemma CellIndex(hps: nat, states: nat, c: nat)
    requires states > 0 && c < hps * states
    ensures c / states < hps && c % states < states && c == c / states * states + c % states
  {
    if c / states >= hps {
      MulMonotone(hps, c / states, states);
    }
  }

  lemma CellAt(states: nat, i: nat, j: nat)
    requires j < states
    ensures (i * states + j) / states == i && (i * states + j) % states == j
  {
    var c := i * states + j;
    var q, r := c / states, c % states;
    assert c == q * states + r;
    if q < i {
      MulMonotone(q + 1, i, states);
    } else if q > i {
      MulMonotone(i + 1, q, states);
    }
  }

  function Belief(samples: seq<Sample>, n: nat, perMille: nat, states: seq<State>): seq<Entry>
    requires ValidSamples(samples) && states != [] && n <= |samples|
  {
    if n == 0 then [] else Belief(samples, n - 1, perMille, states) + Cells(samples, n - 1, perMille, states)
  }

  lemma {:induction false} WeightOfEqual(belief: seq<Entry>, more: seq<Entry>, w: real)
    requires forall i :: 0 <= i < |more| ==> more[i].w == w
    ensures Weight(belief + more) == Weight(belief) + Share(w, |more|)
    decreases |more|
  {
    hide Weight;
    if more == [] {
      assert belief + more == belief;
    } else {
      var k := |more| - 1;
      assert belief + more == (belief + more[..k]) + [more[k]];
      WeightSnoc(belief + more[..k], more[k]);
      WeightOfEqual(belief, more[..k], w);
    }
  }

  lemma Reciprocal(n: real, c: real)
    requires n > 0.0 && c > 0.0
    ensures 1.0 / n * n == 1.0 && 1.0 / (n * c) * c == 1.0 / n
  {}

  lemma CellsShare(scenarios: nat, hps: nat, states: nat)
    requires scenarios > 0 && hps > 0 && states > 0
    ensures Share(CellWeight(scenarios, hps, states), hps * states) == 1.0 / scenarios as real
  {
    var n, c := scenarios as real, hps * states;
    assert scenarios * hps * states == scenarios * c;
    assert (scenarios * c) as real == n * c as real;
    Reciprocal(n, c as real);
    ShareIsProduct(CellWeight(scenarios, hps, states), c);
  }

  lemma {:induction false} ScenariosWeighTheSame(samples: seq<Sample>, n: nat, perMille: nat, states: seq<State>)
    requires ValidSamples(samples) && states != [] && n <= |samples|
    ensures Weight(Belief(samples, n, perMille, states)) == Share(1.0 / |samples| as real, n)
  {
    hide BarHps, DivCeil, CellWeight, Weight, Cells;
    if n == 0 {
      NoWeight();
    } else {
      ScenariosWeighTheSame(samples, n - 1, perMille, states);
      CellsWeighOneScenario(samples, n - 1, perMille, states, Belief(samples, n - 1, perMille, states));
    }
  }

  lemma NoWeight()
    ensures Weight([]) == 0.0
  {}

  lemma CellsWeighOneScenario(samples: seq<Sample>, k: nat, perMille: nat, states: seq<State>, before: seq<Entry>)
    requires ValidSamples(samples) && states != [] && k < |samples|
    ensures Weight(before + Cells(samples, k, perMille, states)) == Weight(before) + 1.0 / |samples| as real
  {
    hide BarHps, DivCeil, CellWeight, Weight, Cells;
    var hps, cells := BarHps(samples[k].maxHp, perMille), Cells(samples, k, perMille, states);
    var w := CellWeight(|samples|, |hps|, |states|);
    forall c | 0 <= c < |cells| ensures cells[c].w == w {
      CellOf(samples, k, perMille, states, c);
    }
    WeightOfEqual(before, cells, w);
    CellsShare(|samples|, |hps|, |states|);
  }

  lemma CellOf(samples: seq<Sample>, k: nat, perMille: nat, states: seq<State>, c: nat)
    requires ValidSamples(samples) && states != [] && k < |samples|
    requires c < |Cells(samples, k, perMille, states)|
    ensures var hps := BarHps(samples[k].maxHp, perMille);
      c / |states| < |hps| && c % |states| < |states|
      && Cells(samples, k, perMille, states)[c]
         == Entry(CellWeight(|samples|, |hps|, |states|), k, DivCeil(hps[c / |states|], samples[k].unit),
             states[c % |states|])
  {
    hide BarHps, DivCeil, CellWeight;
    CellIndex(|BarHps(samples[k].maxHp, perMille)|, |states|, c);
  }

  /** The weights sum to one. */
  lemma WeightsSumToOne(samples: seq<Sample>, perMille: nat, states: seq<State>)
    requires ValidSamples(samples) && states != []
    ensures Weight(Belief(samples, |samples|, perMille, states)) == 1.0
  {
    hide Weight, Belief, Share;
    ScenariosWeighTheSame(samples, |samples|, perMille, states);
    ShareIsProduct(1.0 / |samples| as real, |samples|);
    Reciprocal(|samples| as real, 1.0);
  }

  /** An entry weighs its scenario's share, divided alike among the HPs the bar
      allows there and the statuses. */
  predicate WeighsAlike(e: Entry, samples: seq<Sample>, perMille: nat, states: nat)
    requires ValidSamples(samples)
  {
    && e.scenario < |samples|
    && e.w * (|samples| * |BarHps(samples[e.scenario].maxHp, perMille)| * states) as real == 1.0
  }

  lemma {:induction false} EntriesWeighAlike(samples: seq<Sample>, n: nat, perMille: nat, states: seq<State>, i: nat)
    requires ValidSamples(samples) && states != [] && n <= |samples|
    requires i < |Belief(samples, n, perMille, states)|
    ensures WeighsAlike(Belief(samples, n, perMille, states)[i], samples, perMille, |states|)
  {
    hide BarHps, DivCeil, Cells, CellWeight, WeighsAlike;
    var before := Belief(samples, n - 1, perMille, states);
    if i < |before| {
      EntriesWeighAlike(samples, n - 1, perMille, states, i);
    } else {
      CellWeighsAlike(samples, n - 1, perMille, states, i - |before|);
    }
  }

  lemma CellWeighsAlike(samples: seq<Sample>, k: nat, perMille: nat, states: seq<State>, c: nat)
    requires ValidSamples(samples) && states != [] && k < |samples|
    requires c < |Cells(samples, k, perMille, states)|
    ensures WeighsAlike(Cells(samples, k, perMille, states)[c], samples, perMille, |states|)
  {
    hide BarHps, DivCeil, Cells, CellWeight;
    CellOf(samples, k, perMille, states, c);
    CellWeighs(|samples|, |BarHps(samples[k].maxHp, perMille)|, |states|);
  }

  lemma CellWeighs(scenarios: nat, hps: nat, states: nat)
    requires scenarios > 0 && hps > 0 && states > 0
    ensures CellWeight(scenarios, hps, states) * (scenarios * hps * states) as real == 1.0
  {
    MulMonotone(1, scenarios * hps, states);
    MulMonotone(1, scenarios, hps);
    Reciprocal((scenarios * hps * states) as real, 1.0);
  }

  predicate Lists(entries: seq<Entry>, k: nat, hp: nat, s: State) {
    exists i :: 0 <= i < |entries| && entries[i].scenario == k && entries[i].hp == hp && entries[i].state == s
  }

  /** Some HP the bar allows is this many units. */
  predicate Allowed(sample: Sample, perMille: nat, hp: nat)
    requires sample.maxHp > 0 && sample.unit > 0
  {
    exists i :: 0 <= i < |BarHps(sample.maxHp, perMille)|
                && DivCeil(BarHps(sample.maxHp, perMille)[i], sample.unit) == hp
  }

  lemma CellsListOnlyThose(samples: seq<Sample>, n: nat, perMille: nat, states: seq<State>, k: nat, hp: nat, s: State)
    requires ValidSamples(samples) && states != [] && n < |samples|
    requires Lists(Cells(samples, n, perMille, states), k, hp, s)
    ensures k == n && s in states && Allowed(samples[n], perMille, hp)
  {
    hide BarHps, DivCeil, CellWeight, Cells;
    var cells := Cells(samples, n, perMille, states);
    var c :| 0 <= c < |cells| && cells[c].scenario == k && cells[c].hp == hp && cells[c].state == s;
    CellOf(samples, n, perMille, states, c);
  }

  lemma CellsListThose(samples: seq<Sample>, n: nat, perMille: nat, states: seq<State>, hp: nat, s: State)
    requires ValidSamples(samples) && states != [] && n < |samples|
    requires s in states && Allowed(samples[n], perMille, hp)
    ensures Lists(Cells(samples, n, perMille, states), n, hp, s)
  {
    hide BarHps, DivCeil, CellWeight, Cells;
    var hps, cells := BarHps(samples[n].maxHp, perMille), Cells(samples, n, perMille, states);
    var i :| 0 <= i < |hps| && DivCeil(hps[i], samples[n].unit) == hp;
    var j :| 0 <= j < |states| && states[j] == s;
    var c := i * |states| + j;
    CellAt(|states|, i, j);
    MulMonotone(i + 1, |hps|, |states|);
    CellOf(samples, n, perMille, states, c);
    assert cells[c].scenario == n;
  }

  lemma ListsConcat(a: seq<Entry>, b: seq<Entry>, k: nat, hp: nat, s: State)
    ensures Lists(a + b, k, hp, s) <==> Lists(a, k, hp, s) || Lists(b, k, hp, s)
  {
    if Lists(a, k, hp, s) {
      var i :| 0 <= i < |a| && a[i].scenario == k && a[i].hp == hp && a[i].state == s;
      assert (a + b)[i] == a[i];
    }
    if Lists(b, k, hp, s) {
      var i :| 0 <= i < |b| && b[i].scenario == k && b[i].hp == hp && b[i].state == s;
      assert (a + b)[|a| + i] == b[i];
    }
  }

  lemma CellsListExactly(samples: seq<Sample>, n: nat, perMille: nat, states: seq<State>, k: nat, hp: nat, s: State)
    requires ValidSamples(samples) && states != [] && n < |samples|
    ensures Lists(Cells(samples, n, perMille, states), k, hp, s) <==>
      Believed(samples, perMille, states, k, hp, s) && k == n
  {
    hide Allowed, Cells, Lists;
    if Lists(Cells(samples, n, perMille, states), k, hp, s) {
      CellsListOnlyThose(samples, n, perMille, states, k, hp, s);
    }
    if k == n && Believed(samples, perMille, states, k, hp, s) {
      CellsListThose(samples, n, perMille, states, hp, s);
    }
  }

  /** A status the foe may have, and an HP that shows as its bar does. */
  predicate Believed(samples: seq<Sample>, perMille: nat, states: seq<State>, k: nat, hp: nat, s: State)
    requires ValidSamples(samples)
  {
    k < |samples| && s in states && Allowed(samples[k], perMille, hp)
  }

  /** Each scenario is believed at each HP the bar allows and each status the
      foe may have, and nothing else is believed. */
  lemma {:induction false} BelievedExactly(
      samples: seq<Sample>, n: nat, perMille: nat, states: seq<State>, k: nat, hp: nat, s: State)
    requires ValidSamples(samples) && states != [] && n <= |samples|
    ensures Lists(Belief(samples, n, perMille, states), k, hp, s) <==>
      k < n && Believed(samples, perMille, states, k, hp, s)
  {
    hide Allowed, Cells, Lists, Believed;
    if n == 0 {
      ListsNothing(k, hp, s);
    } else {
      BelievedExactly(samples, n - 1, perMille, states, k, hp, s);
      CellsListExactly(samples, n - 1, perMille, states, k, hp, s);
      ListsConcat(Belief(samples, n - 1, perMille, states), Cells(samples, n - 1, perMille, states), k, hp, s);
    }
  }

  lemma ListsNothing(k: nat, hp: nat, s: State)
    ensures !Lists([], k, hp, s)
  {}

  /** The believed statuses come from one seen status, so they are all none or
      all some, and all can be reached. */
  lemma BeliefIsValid(samples: seq<Sample>, perMille: nat, status: FoeStatus, asleepFor: nat)
    requires ValidSamples(samples)
    ensures var belief := Belief(samples, |samples|, perMille, States(status, asleepFor));
      ValidBelief(belief, |samples|) && OneStatus(belief)
  {
    hide Belief, StillAsleep;
    var states := States(status, asleepFor);
    StatesAreOfOneKind(status, asleepFor);
    EntriesAreCells(samples, |samples|, perMille, states);
  }

  lemma StatesAreOfOneKind(status: FoeStatus, asleepFor: nat)
    ensures forall s :: s in States(status, asleepFor) ==> Reachable(s) && (s.Awake? <==> status.NoStatus?)
  {}

  lemma {:induction false} EntriesAreCells(samples: seq<Sample>, n: nat, perMille: nat, states: seq<State>)
    requires ValidSamples(samples) && states != [] && n <= |samples|
    ensures forall i :: 0 <= i < |Belief(samples, n, perMille, states)| ==>
      var e := Belief(samples, n, perMille, states)[i];
      e.w >= 0.0 && e.scenario < |samples| && e.state in states
  {
    hide BarHps, DivCeil, Cells;
    if n > 0 {
      EntriesAreCells(samples, n - 1, perMille, states);
      var cells := Cells(samples, n - 1, perMille, states);
      forall c | 0 <= c < |cells|
        ensures cells[c].w >= 0.0 && cells[c].scenario < |samples| && cells[c].state in states {
        CellOf(samples, n - 1, perMille, states, c);
      }
    }
  }

  /** Scenarios weigh the same, and so does every HP and status in one. */
  method Believe(samples: seq<Sample>, perMille: nat, states: seq<State>) returns (belief: seq<Entry>)
    requires ValidSamples(samples) && states != []
    ensures belief == Belief(samples, |samples|, perMille, states)
  {
    hide BarHps, DivCeil, CellWeight, Cells;
    belief := [];
    for k := 0 to |samples|
      invariant belief == Belief(samples, k, perMille, states)
    {
      ghost var before, cells := belief, Cells(samples, k, perMille, states);
      var hps := BarHps(samples[k].maxHp, perMille);
      var w := CellWeight(|samples|, |hps|, |states|);
      for i := 0 to |hps|
        invariant i * |states| <= |cells|
        invariant belief == before + cells[..i * |states|]
      {
        MulMonotone(i + 1, |hps|, |states|);
        for j := 0 to |states|
          invariant belief == before + cells[..i * |states| + j]
        {
          CellAt(|states|, i, j);
          MulMonotone(i + 1, |hps|, |states|);
          CellOf(samples, k, perMille, states, i * |states| + j);
          var e := Entry(w, k, DivCeil(hps[i], samples[k].unit), states[j]);
          belief := belief + [e];
        }
        assert (i + 1) * |states| == i * |states| + |states|;
      }
      assert cells[..|cells|] == cells;
    }
  }

  // ---- The choice ----

  /** One choice in two scenarios: chances and damage may differ. */
  predicate SameKind(a: Effect, b: Effect) {
    (a.Run? <==> b.Run?) && (a.Throw? <==> b.Throw?) && (a.Status? <==> b.Status?)
  }

  /** Every scenario plays the same choices, in one order. */
  ghost predicate ValidScenarios(games: seq<Game>, choices: nat, weight: real) {
    && (forall k :: 0 <= k < |games| ==>
          ValidGame(games[k]) && |games[k].effects| == choices && games[k].leadFaint == weight)
    && (forall k, i :: 0 <= k < |games| && 0 <= i < choices ==>
          SameKind(games[k].effects[i], games[0].effects[i]))
  }

  /** A choice's outlook in one entry of the belief, on the first turn. */
  function AtEntry(games: seq<Game>, e: Entry, i: nat, balls: nat): Option<Outlook> {
    if e.scenario < |games| && i < |games[e.scenario].effects|
    then Q(games[e.scenario], i, 0, balls, e.hp, e.state, NextBest(games[e.scenario], 0))
    else None
  }

  predicate Possible(games: seq<Game>, belief: seq<Entry>, i: nat, balls: nat) {
    forall k :: 0 <= k < |belief| ==> AtEntry(games, belief[k], i, balls).Some?
  }

  /** A choice's outlook averaged over the belief. */
  function Average(games: seq<Game>, belief: seq<Entry>, i: nat, balls: nat): Outlook
    decreases |belief|
  {
    if belief == [] then ZERO
    else
      var n := |belief| - 1;
      var before := Average(games, belief[..n], i, balls);
      match AtEntry(games, belief[n], i, balls)
      case None => before
      case Some(o) => Plus(before, Scaled(o, belief[n].w))
  }

  /** The averaged outlook keeps the laws of an outlook. */
  lemma {:induction false} AverageIsLawful(games: seq<Game>, belief: seq<Entry>, i: nat, balls: nat, choices: nat,
      weight: real)
    requires ValidScenarios(games, choices, weight) && ValidBelief(belief, |games|) && Possible(games, belief, i, balls)
    ensures Lawful(Average(games, belief, i, balls), Weight(belief), balls as real, weight)
    decreases |belief|
  {
    hide Q, Lawful, Scaled, Plus, ValidGame, Best, NextBest;
    if belief == [] {
      ZeroLawful(balls as real, weight);
    } else {
      var n := |belief| - 1;
      var e := belief[n];
      AverageIsLawful(games, belief[..n], i, balls, choices, weight);
      var o := AtEntry(games, e, i, balls);
      assert o.Some?;
      NextBestIsLawful(games[e.scenario], 0);
      QLawful(games[e.scenario], i, 0, balls, e.hp, e.state, NextBest(games[e.scenario], 0));
      ScaledLawful(o.value, 1.0, balls as real, weight, e.w);
      PlusLawful(Average(games, belief[..n], i, balls), Weight(belief[..n]), Scaled(o.value, e.w), 1.0 * e.w,
          balls as real, weight);
    }
  }

  lemma NextBestIsLawful(g: Game, turn: nat)
    requires ValidGame(g) && turn < MAX_TURNS
    ensures LawfulRest(NextBest(g, turn), g.leadFaint)
  {
    hide Best, Lawful, ValidGame;
    forall b: nat, h: nat, z: State
      ensures Lawful(NextBest(g, turn)(b, h, z), 1.0, b as real, g.leadFaint)
    {
      BestIsLawful(g, turn + 1, b, h, z);
    }
  }

  /** The outlook of a policy that plays `i` first, averaged over the belief.
      Later it may use all it sees, and may even differ between scenarios. */
  function AveragePolicy(games: seq<Game>, belief: seq<Entry>, pols: nat -> Policy, balls: nat): real
    decreases |belief|
  {
    if belief == [] then 0.0
    else
      var n, e := |belief| - 1, belief[|belief| - 1];
      var before := AveragePolicy(games, belief[..n], pols, balls);
      if e.scenario >= |games| then before
      else before + Follow(games[e.scenario], pols(e.scenario), 0, [Node(balls, e.hp, e.state)]).value * e.w
  }

  /** On the first turn all scenarios look alike: the policy plays `i` in each. */
  ghost predicate StartsWith(belief: seq<Entry>, pols: nat -> Policy, balls: nat, i: nat) {
    forall k :: 0 <= k < |belief| ==> pols(belief[k].scenario)([Node(balls, belief[k].hp, belief[k].state)]) == i
  }

  /** A choice's average is at least what any policy starting with it gets. */
  lemma {:induction false} AverageIsAnUpperBound(games: seq<Game>, belief: seq<Entry>, pols: nat -> Policy, i: nat,
      balls: nat, choices: nat, weight: real)
    requires ValidScenarios(games, choices, weight) && ValidBelief(belief, |games|)
    requires balls > 0 && Possible(games, belief, i, balls) && StartsWith(belief, pols, balls, i)
    ensures AveragePolicy(games, belief, pols, balls) <= Average(games, belief, i, balls).value
    decreases |belief|
  {
    hide Q, ValidGame, Best, NextBest, Follow, NextFollow;
    if belief != [] {
      var n := |belief| - 1;
      var e := belief[n];
      AverageIsAnUpperBound(games, belief[..n], pols, i, balls, choices, weight);
      assert AtEntry(games, e, i, balls).Some?;
      FirstChoiceBounds(games[e.scenario], pols(e.scenario), i, balls, e.hp, e.state);
      var gets := Follow(games[e.scenario], pols(e.scenario), 0, [Node(balls, e.hp, e.state)]).value;
      Product(gets, AtEntry(games, e, i, balls).value.value, e.w);
    }
  }

  lemma FirstChoiceBounds(g: Game, pol: Policy, i: nat, balls: nat, hp: nat, s: State)
    requires ValidGame(g) && balls > 0 && i < |g.effects| && pol([Node(balls, hp, s)]) == i
    requires Q(g, i, 0, balls, hp, s, NextBest(g, 0)).Some?
    ensures Follow(g, pol, 0, [Node(balls, hp, s)]).value <= Q(g, i, 0, balls, hp, s, NextBest(g, 0)).value.value
  {
    hide Q, ValidGame, NextBest, NextFollow, Under;
    var seen := [Node(balls, hp, s)];
    NextFollowIsUnder(g, pol, 0, seen);
    PossibleWhatever(g, i, 0, balls, hp, s, NextBest(g, 0), NextFollow(g, pol, 0, seen));
    QMonotone(g, i, 0, balls, 0, hp, s, NextFollow(g, pol, 0, seen), NextBest(g, 0));
  }

  lemma PossibleWhatever(g: Game, i: nat, turn: nat, balls: nat, hp: nat, s: State, a: Rest, b: Rest)
    requires i < |g.effects|
    ensures Q(g, i, turn, balls, hp, s, a).Some? <==> Q(g, i, turn, balls, hp, s, b).Some?
  {
    hide FoeTurn, Sleeps, Attacked, Scaled, Plus;
  }

  const TIE: real := 0.000000001

  /** The choice that is best on average; none is RUN, worth nothing. */
  datatype Odds = Odds(choice: Option<nat>, outlook: Outlook)

  /** No possible choice is worth more than a tie above the decision, nor is
      RUN, and the decision's outlook is its choice's. */
  ghost predicate BestOnAverage(odds: Odds, games: seq<Game>, belief: seq<Entry>, balls: nat, n: nat)
    requires games != [] && n <= |games[0].effects|
  {
    && odds.outlook.value >= 0.0
    && (odds.choice.None? ==> odds.outlook == ZERO)
    && (odds.choice.Some? ==>
          && odds.choice.value < n && !games[0].effects[odds.choice.value].Run?
          && Possible(games, belief, odds.choice.value, balls)
          && odds.outlook == Average(games, belief, odds.choice.value, balls)
          && forall j :: 0 <= j < odds.choice.value && !games[0].effects[j].Run? && Possible(games, belief, j,
              balls) ==>
               Average(games, belief, j, balls).value < odds.outlook.value)
    && (forall j :: 0 <= j < n && !games[0].effects[j].Run? && Possible(games, belief, j, balls) ==>
          Average(games, belief, j, balls).value <= odds.outlook.value + 0.000000001)
  }

  ghost predicate AllValid(solvers: seq<Solver>, games: seq<Game>)
    reads solvers
  {
    && |solvers| == |games|
    && forall k :: 0 <= k < |games| ==> solvers[k].game == games[k] && solvers[k].Valid()
  }

  /** Asks every scenario's solver about one choice. */
  method Weigh(solvers: seq<Solver>, games: seq<Game>, belief: seq<Entry>, i: nat, balls: nat)
    returns (total: Outlook, possible: bool)
    requires AllValid(solvers, games) && ValidBelief(belief, |games|) && balls < 0x1_0000
    requires forall k :: 0 <= k < |games| ==> i < |games[k].effects|
    requires forall k, j :: 0 <= k < j < |solvers| ==> solvers[k] != solvers[j]
    modifies solvers
    ensures AllValid(solvers, games)
    ensures total == Average(games, belief, i, balls) && possible == Possible(games, belief, i, balls)
  {
    hide Q, NextBest, Scaled, Plus, Solver.Valid;
    total, possible := ZERO, true;
    for n := 0 to |belief|
      invariant AllValid(solvers, games)
      invariant total == Average(games, belief[..n], i, balls) && possible == Possible(games, belief[..n], i, balls)
    {
      var e := belief[n];
      var o := solvers[e.scenario].Choose(i, 0, balls, e.hp, e.state);
      assert belief[..n + 1][..n] == belief[..n];
      assert o == AtEntry(games, e, i, balls);
      if o.Some? {
        total := Plus(total, Scaled(o.value, e.w));
      } else {
        possible := false;
        assert belief[..n + 1][n] == e;
      }
    }
    assert belief[..|belief|] == belief;
  }

  method Decide(solvers: seq<Solver>, games: seq<Game>, belief: seq<Entry>, balls: nat, choices: nat, weight: real)
    returns (odds: Odds)
    requires AllValid(solvers, games) && games != [] && ValidScenarios(games, choices, weight)
    requires ValidBelief(belief, |games|) && balls < 0x1_0000
    requires forall k, j :: 0 <= k < j < |solvers| ==> solvers[k] != solvers[j]
    modifies solvers
    ensures BestOnAverage(odds, games, belief, balls, choices)
  {
    hide Average, Possible, ValidBelief, Solver.Valid, ValidGame;
    odds := Odds(None, ZERO);
    for i := 0 to choices
      invariant AllValid(solvers, games)
      invariant BestOnAverage(odds, games, belief, balls, i)
    {
      if !games[0].effects[i].Run? {
        var total, possible := Weigh(solvers, games, belief, i, balls);
        if possible && total.value > odds.outlook.value + TIE {
          odds := Odds(Some(i), total);
        }
      }
    }
  }

  /** No policy that starts the same way in every scenario it believes in does
      better on average than the decision, up to a tie. */
  lemma NoBlindPolicyBeatsTheDecision(odds: Odds, games: seq<Game>, belief: seq<Entry>, pols: nat -> Policy, i: nat,
      balls: nat, choices: nat, weight: real)
    requires games != [] && ValidScenarios(games, choices, weight)
    requires ValidBelief(belief, |games|) && OneStatus(belief)
    requires BestOnAverage(odds, games, belief, balls, choices) && StartsWith(belief, pols, balls, i)
    ensures AveragePolicy(games, belief, pols, balls) <= odds.outlook.value + 0.000000001
  {
    hide Average, AveragePolicy, ValidGame, Possible, AtEntry, OneStatus, StartsWith, ValidBelief, SameKind;
    if balls == 0 || i >= choices {
      NothingIsWorthNothing(games, belief, pols, i, balls, choices, weight);
    } else if !Possible(games, belief, i, balls) {
      ImpossibleIsNowherePossible(games, belief, i, balls, choices, weight);
      NothingIsWorthNothing(games, belief, pols, i, balls, choices, weight);
    } else {
      AverageIsAnUpperBound(games, belief, pols, i, balls, choices, weight);
      if games[0].effects[i].Run? {
        RunIsWorthNothing(games, belief, i, balls, choices, weight);
      }
    }
  }

  /** With one status believed, a choice is possible throughout or nowhere. */
  lemma ImpossibleIsNowherePossible(games: seq<Game>, belief: seq<Entry>, i: nat, balls: nat,
      choices: nat, weight: real)
    requires games != [] && ValidScenarios(games, choices, weight)
    requires ValidBelief(belief, |games|) && OneStatus(belief)
    requires balls > 0 && i < choices && !Possible(games, belief, i, balls)
    ensures forall k :: 0 <= k < |belief| ==> AtEntry(games, belief[k], i, balls).None?
  {
    hide ValidGame, NextBest;
    var l :| 0 <= l < |belief| && AtEntry(games, belief[l], i, balls).None?;
    PossibleWhen(games, belief[l], i, balls, choices, weight);
    forall k | 0 <= k < |belief| ensures AtEntry(games, belief[k], i, balls).None? {
      hide Q;
      PossibleWhen(games, belief[k], i, balls, choices, weight);
    }
  }

  lemma PossibleWhen(games: seq<Game>, e: Entry, i: nat, balls: nat, choices: nat, weight: real)
    requires games != [] && ValidScenarios(games, choices, weight) && e.scenario < |games|
    requires balls > 0 && i < choices
    ensures AtEntry(games, e, i, balls).None? <==> games[0].effects[i].Status? && !e.state.Awake?
  {
    hide ValidGame, NextBest, FoeTurn, Sleeps, Attacked, Scaled, Plus;
    assert SameKind(games[e.scenario].effects[i], games[0].effects[i]);
  }

  lemma {:induction false} RunIsWorthNothing(games: seq<Game>, belief: seq<Entry>, i: nat, balls: nat, choices: nat,
      weight: real)
    requires ValidScenarios(games, choices, weight) && ValidBelief(belief, |games|)
    requires games != [] && i < choices && games[0].effects[i].Run?
    ensures Average(games, belief, i, balls).value == 0.0
    decreases |belief|
  {
    hide ValidGame, NextBest;
    if belief != [] {
      var e := belief[|belief| - 1];
      RunIsWorthNothing(games, belief[..|belief| - 1], i, balls, choices, weight);
      assert AtEntry(games, e, i, balls) == Some(ZERO);
    }
  }

  /** A policy without balls, or whose first choice is not there or not possible,
      gives up. */
  lemma {:induction false} NothingIsWorthNothing(games: seq<Game>, belief: seq<Entry>, pols: nat -> Policy, i: nat,
      balls: nat, choices: nat, weight: real)
    requires ValidScenarios(games, choices, weight) && ValidBelief(belief, |games|)
    requires StartsWith(belief, pols, balls, i)
    requires balls == 0 || i >= choices || forall k :: 0 <= k < |belief| ==> AtEntry(games, belief[k], i, balls).None?
    ensures AveragePolicy(games, belief, pols, balls) == 0.0
    decreases |belief|
  {
    hide ValidGame, Q, NextBest, Follow, ValidScenarios;
    if belief != [] {
      var n, e := |belief| - 1, belief[|belief| - 1];
      NothingIsWorthNothing(games, belief[..n], pols, i, balls, choices, weight);
      GivesUp(games, e, pols(e.scenario), i, balls, choices, weight);
    }
  }

  lemma GivesUp(games: seq<Game>, e: Entry, pol: Policy, i: nat, balls: nat, choices: nat, weight: real)
    requires ValidScenarios(games, choices, weight) && e.scenario < |games|
    requires pol([Node(balls, e.hp, e.state)]) == i
    requires balls == 0 || i >= choices || AtEntry(games, e, i, balls).None?
    ensures Follow(games[e.scenario], pol, 0, [Node(balls, e.hp, e.state)]) == ZERO
  {
    hide ValidGame, Q, NextBest, NextFollow;
    var g := games[e.scenario];
    if i < choices {
      var follows := NextFollow(g, pol, 0, [Node(balls, e.hp, e.state)]);
      PossibleWhatever(g, i, 0, balls, e.hp, e.state, NextBest(g, 0), follows);
    }
  }
}
