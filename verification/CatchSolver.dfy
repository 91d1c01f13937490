/** The memoised solver: the recursion over a packed key equals the plain one. */
module CatchSolver {
  import opened CatchOdds
  import opened Wrappers

  const BALLS_SHIFT: nat := 8
  const STATE_SHIFT: nat := 24
  const HP_SHIFT: nat := 32

  /** The bitwise or, from the lowest bits up. */
  function Or(a: nat, b: nat): nat {
    if a == 0 && b == 0 then 0 else 2 * Or(a / 2, b / 2) + if a % 2 == 1 || b % 2 == 1 then 1 else 0
  }

  function Pow2(k: nat): nat {
    if k == 0 then 1 else 2 * Pow2(k - 1)
  }

  function Shifted(a: nat, k: nat): nat { a * Pow2(k) }

  function Code(s: State): nat {
    match s case Awake => 0 case Paralyzed => 1 case Asleep(n) => 1 + n
  }

  /** The packed key: the fields, shifted and put together by bitwise or. */
  function Key(turn: nat, balls: nat, hp: nat, s: State): nat {
    Or(Or(Or(turn, Shifted(balls, BALLS_SHIFT)), Shifted(Code(s), STATE_SHIFT)), Shifted(hp, HP_SHIFT))
  }

  // ---- What the or comes to ----

  lemma {:induction false} OrWithNothing(c: nat)
    ensures Or(0, c) == c
    decreases c
  {
    if c > 0 {
      OrWithNothing(c / 2);
    }
  }

  /** Above `k` bits the or goes on alone. */
  lemma {:induction false} OrAbove(a: nat, b: nat, c: nat, k: nat)
    requires a < Pow2(k)
    ensures Or(a + Shifted(b, k), Shifted(c, k)) == a + Shifted(Or(b, c), k)
    decreases k
  {
    if k > 0 {
      var x, y := a + Shifted(b, k), Shifted(c, k);
      Doubled(b, k);
      Doubled(c, k);
      Doubled(Or(b, c), k);
      OrAbove(a / 2, b, c, k - 1);
      assert x / 2 == a / 2 + Shifted(b, k - 1) && x % 2 == a % 2;
      assert y / 2 == Shifted(c, k - 1) && y % 2 == 0;
    }
  }

  lemma Doubled(b: nat, k: nat)
    requires k > 0
    ensures Shifted(b, k) == 2 * Shifted(b, k - 1)
  {}

  /** Onto fewer than `k` bits, a shifted field is added. */
  lemma OrIsAdded(a: nat, c: nat, k: nat)
    requires a < Pow2(k)
    ensures Or(a, Shifted(c, k)) == a + Shifted(c, k)
  {
    hide Or;
    OrAbove(a, 0, c, k);
    OrWithNothing(c);
  }

  lemma Powers()
    ensures Pow2(BALLS_SHIFT) == 0x100 && Pow2(STATE_SHIFT) == 0x100_0000 && Pow2(HP_SHIFT) == 0x1_0000_0000
  {
    assert Pow2(8) == 0x100;
    assert Pow2(16) == 0x1_0000;
    assert Pow2(24) == 0x100_0000;
    assert Pow2(32) == 0x1_0000_0000;
  }

  /** Fields in range do not overlap: the key is their sum. */
  lemma KeyIsSum(turn: nat, balls: nat, hp: nat, s: State)
    requires InRange(turn, balls, s)
    ensures Key(turn, balls, hp, s) == turn + balls * 0x100 + Code(s) * 0x100_0000 + hp * 0x1_0000_0000
  {
    hide Or, Pow2, Code;
    Powers();
    OrIsAdded(turn, balls, BALLS_SHIFT);
    OrIsAdded(turn + balls * 0x100, Code(s), STATE_SHIFT);
    OrIsAdded(turn + balls * 0x100 + Code(s) * 0x100_0000, hp, HP_SHIFT);
  }

  predicate InRange(turn: nat, balls: nat, s: State) {
    turn < 0x100 && balls < 0x1_0000 && Code(s) < 0x100
  }

  /** Two keys of values in range are the same exactly when all fields are and
      the statuses have one code: a sleep of no actions would be taken for
      paralysis. */
  lemma KeysCollideOnlyOnAsleepZero(t: nat, b: nat, h: nat, s: State, t': nat, b': nat, h': nat, s': State)
    requires InRange(t, b, s) && InRange(t', b', s')
    ensures Key(t, b, h, s) == Key(t', b', h', s') <==>
      t == t' && b == b' && h == h' && (s == s' || {s, s'} == {Paralyzed, Asleep(0)})
  {
    hide Key;
    KeyIsSum(t, b, h, s);
    KeyIsSum(t', b', h', s');
    if Key(t, b, h, s) == Key(t', b', h', s') {
      FieldsOfSum(t, b, Code(s), h, t', b', Code(s'), h');
    }
  }

  lemma FieldsOfSum(t: nat, b: nat, c: nat, h: nat, t': nat, b': nat, c': nat, h': nat)
    requires t < 0x100 && b < 0x1_0000 && c < 0x100 && t' < 0x100 && b' < 0x1_0000 && c' < 0x100
    requires t + b * 0x100 + c * 0x100_0000 + h * 0x1_0000_0000
          == t' + b' * 0x100 + c' * 0x100_0000 + h' * 0x1_0000_0000
    ensures t == t' && b == b' && c == c' && h == h'
  {
    var low, low' := t + b * 0x100 + c * 0x100_0000, t' + b' * 0x100 + c' * 0x100_0000;
    assert low < 0x1_0000_0000 && low' < 0x1_0000_0000;
    assert h == h' && low == low';
    var lower, lower' := t + b * 0x100, t' + b' * 0x100;
    assert lower < 0x100_0000 && lower' < 0x100_0000;
  }

  /** The longest sleep a byte can count is out of range: its code spills into
      the lowest bit of the hit points. It has the key of no status at the same
      hit points when they are odd, and at one more when they are even. */
  lemma LongestSleepSpills(t: nat, b: nat, h: nat)
    requires t < 0x100 && b < 0x1_0000
    ensures Key(t, b, h, Asleep(255)) == Key(t, b, if h % 2 == 1 then h else h + 1, Awake)
  {
    hide Or, Pow2;
    var odd := if h % 2 == 1 then h else h + 1;
    Powers();
    KeyIsSum(t, b, odd, Awake);
    OrIsAdded(t, b, BALLS_SHIFT);
    OrIsAdded(t + b * 0x100, 0x100, STATE_SHIFT);
    OrAbove(t + b * 0x100, 1, h, HP_SHIFT);
    OrOfOne(h);
  }

  lemma OrOfOne(h: nat)
    ensures Or(1, h) == if h % 2 == 1 then h else h + 1
  {
    OrWithNothing(h / 2);
  }

  /** The statuses an attempt can pass through: a sleep starts at up to four
      actions, five before the foe's turn, and never counts down to none. */
  predicate Reachable(s: State) {
    s.Asleep? ==> 1 <= s.n <= 5
  }

  lemma ReachableStays(s: State, n: nat)
    requires Reachable(s)
    ensures Reachable(AfterTurn(s))
    ensures n in SLEEP_ACTIONS ==> Reachable(Asleep(n + 1)) && AfterTurn(Asleep(n + 1)) == Asleep(n)
  {}

  predicate Fits(turn: nat, balls: nat, s: State) {
    turn <= MAX_TURNS && balls < 0x1_0000 && Reachable(s)
  }

  lemma KeyIsInjective(t: nat, b: nat, h: nat, s: State, t': nat, b': nat, h': nat, s': State)
    requires Fits(t, b, s) && Fits(t', b', s') && Key(t, b, h, s) == Key(t', b', h', s')
    ensures t == t' && b == b' && h == h' && s == s'
  {
    KeysCollideOnlyOnAsleepZero(t, b, h, s, t', b', h', s');
    assert Asleep(0) in {Paralyzed, Asleep(0)};
  }

  class Solver {
    const game: Game
    var memo: map<nat, Outlook>

    /** Whatever is remembered under the key of a reachable state is that
        state's outlook. */
    ghost predicate Valid()
      reads this
    {
      forall t, b, h, s :: Fits(t, b, s) && Key(t, b, h, s) in memo ==> memo[Key(t, b, h, s)] == Best(game, t, b, h, s)
    }

    constructor (game: Game)
      ensures this.game == game && Valid()
    {
      this.game := game;
      memo := map[];
    }

    method Remember(turn: nat, balls: nat, hp: nat, s: State, o: Outlook)
      requires Valid() && Fits(turn, balls, s) && o == Best(game, turn, balls, hp, s)
      modifies this
      ensures Valid() && memo == old(memo)[Key(turn, balls, hp, s) := o]
    {
      hide Best, Key;
      memo := memo[Key(turn, balls, hp, s) := o];
      forall t, b, h, z | Fits(t, b, z) && Key(t, b, h, z) in memo
        ensures memo[Key(t, b, h, z)] == Best(game, t, b, h, z)
      {
        if Key(t, b, h, z) == Key(turn, balls, hp, s) {
          KeyIsInjective(t, b, h, z, turn, balls, hp, s);
        }
      }
    }

    /** The memoised recursion returns what the plain one does. */
    method Solve(turn: nat, balls: nat, hp: nat, s: State) returns (o: Outlook)
      requires Valid() && Fits(turn, balls, s)
      modifies this
      ensures Valid() && o == Best(game, turn, balls, hp, s)
      decreases MAX_TURNS - turn, 2
    {
      hide Key, Valid, Q;
      if balls == 0 || turn >= MAX_TURNS {
        return ZERO;
      }
      var key := Key(turn, balls, hp, s);
      if key in memo {
        Recall(turn, balls, hp, s);
        return memo[key];
      }
      o := ZERO;
      for i := 0 to |game.effects|
        invariant Valid() && o == BestOf(game, i, turn, balls, hp, s, NextBest(game, turn))
      {
        var b := Choose(i, turn, balls, hp, s);
        if b.Some? && b.value.value > o.value {
          o := b.value;
        }
      }
      Remember(turn, balls, hp, s, o);
    }

    lemma Recall(turn: nat, balls: nat, hp: nat, s: State)
      requires Valid() && Fits(turn, balls, s) && Key(turn, balls, hp, s) in memo
      ensures memo[Key(turn, balls, hp, s)] == Best(game, turn, balls, hp, s)
    {
      hide Best, Key, Fits;
    }

    method Choose(i: nat, turn: nat, balls: nat, hp: nat, s: State) returns (o: Option<Outlook>)
      requires Valid() && Fits(turn, balls, s) && turn < MAX_TURNS && i < |game.effects|
      modifies this
      ensures Valid() && o == Q(game, i, turn, balls, hp, s, NextBest(game, turn))
      decreases MAX_TURNS - turn, 1
    {
      hide Valid, FoeTurn, Scaled, Plus, Best;
      match game.effects[i]
      case Run => o := Some(ZERO);
      case Throw =>
        if balls == 0 {
          return None;
        }
        var p := game.chance(hp, CatchX10(s));
        var missed := FoeMoves(turn, balls - 1, hp, s);
        o := Some(Plus(Scaled(CAUGHT, p), Scaled(missed.(balls := missed.balls + 1.0), 1.0 - p)));
      case Status(p, sleep) =>
        if s != Awake {
          return None;
        }
        var missed := FoeMoves(turn, balls, hp, s);
        missed := Scaled(missed, 1.0 - p);
        var landed := ZERO;
        if sleep {
          var each := p / 4.0;
          for k := 0 to |SLEEP_ACTIONS|
            invariant Valid() && landed == Sleeps(game, turn, balls, hp, each, SLEEP_ACTIONS[..k], NextBest(game, turn))
          {
            ReachableStays(s, SLEEP_ACTIONS[k]);
            var foe := FoeMoves(turn, balls, hp, Asleep(SLEEP_ACTIONS[k] + 1));
            assert SLEEP_ACTIONS[..k + 1][..k] == SLEEP_ACTIONS[..k];
            landed := Plus(landed, Scaled(foe, each));
          }
          assert SLEEP_ACTIONS[..4] == SLEEP_ACTIONS;
        } else {
          var foe := FoeMoves(turn, balls, hp, Paralyzed);
          landed := Scaled(foe, p);
        }
        o := Some(Plus(landed, missed));
      case Attack(outcomes) =>
        var total := ZERO;
        for k := 0 to |outcomes|
          invariant Valid() && total == Attacked(game, turn, balls, hp, s, outcomes[..k], NextBest(game, turn))
        {
          var then_ := FOE_FAINTED;
          if outcomes[k].damage < hp {
            then_ := FoeMoves(turn, balls, hp - outcomes[k].damage, s);
          }
          assert outcomes[..k + 1][..k] == outcomes[..k];
          total := Plus(total, Scaled(then_, outcomes[k].p));
        }
        assert outcomes[..|outcomes|] == outcomes;
        o := Some(total);
    }

    method FoeMoves(turn: nat, balls: nat, hp: nat, s: State) returns (o: Outlook)
      requires Valid() && Fits(turn, balls, s) && turn < MAX_TURNS
      modifies this
      ensures Valid() && o == FoeTurn(game, turn, balls, hp, s, NextBest(game, turn))
      decreases MAX_TURNS - turn, 0
    {
      hide Valid, Best, Scaled, Plus;
      var h := Hazard(game, turn);
      var fainted := Outlook(-game.leadFaint, 0.0, 0.0, 1.0, 0.0);
      ReachableStays(s, 0);
      var on := Solve(turn + 1, balls, hp, AfterTurn(s));
      o := Plus(Scaled(fainted, h), Scaled(on, 1.0 - h));
    }
  }
}
