/** Conditions on flags, trainers and vars: what they mean in a game state, how
    they are negated, decided from what a path has set, and found to contradict
    the path's other conditions. */
module EventConditions {
  import opened Seqs
  import opened Wrappers

  type Name = string

  /** A number, or a symbolic constant whose number the compiler cannot know. */
  datatype Value = Num(n: int) | Sym(name: Name)

  datatype Op = Lt | Eq | Gt | Le | Ge | Ne

  datatype Key = Flag(name: Name) | Trainer(name: Name)

  datatype Cond = KeyIs(key: Key, is_: bool) | VarIs(v: Name, op: Op, value: Value)

  /** A game state: the flags and trainers that are set, and the vars. */
  datatype Store = Store(keys: set<Key>, vars: map<Name, int>)

  type Symbols = Name -> int

  function Get(s: Store, v: Name): int { if v in s.vars then s.vars[v] else 0 }

  function Meaning(value: Value, sigma: Symbols): int {
    match value case Num(n) => n case Sym(name) => sigma(name)
  }

  predicate Compare(op: Op, a: int, b: int) {
    match op
    case Lt => a < b
    case Eq => a == b
    case Gt => a > b
    case Le => a <= b
    case Ge => a >= b
    case Ne => a != b
  }

  predicate Holds(c: Cond, s: Store, sigma: Symbols) {
    match c
    case KeyIs(key, is_) => (key in s.keys) == is_
    case VarIs(v, op, value) => Compare(op, Get(s, v), Meaning(value, sigma))
  }

  predicate AllHold(when_: seq<Cond>, s: Store, sigma: Symbols) {
    forall i :: 0 <= i < |when_| ==> Holds(when_[i], s, sigma)
  }

  // ---- Negation ----

  function Inverse(op: Op): Op {
    match op
    case Lt => Ge
    case Eq => Ne
    case Gt => Le
    case Le => Gt
    case Ge => Lt
    case Ne => Eq
  }

  function Negate(c: Cond): Cond {
    match c
    case KeyIs(key, is_) => KeyIs(key, !is_)
    case VarIs(v, op, value) => VarIs(v, Inverse(op), value)
  }

  lemma NegationIsExact(c: Cond, s: Store, sigma: Symbols)
    ensures Holds(Negate(c), s, sigma) <==> !Holds(c, s, sigma)
  {}

  // ---- Deciding from what the path has set ----

  function StaticEval(c: Cond, env: map<Name, Value>, flags: map<Key, bool>): Option<bool> {
    match c
    case KeyIs(key, is_) => if key in flags then Some(flags[key] == is_) else None
    case VarIs(v, op, want) =>
      if v !in env then None
      else
        var have := env[v];
        if have.Num? != want.Num? then None
        else if have.Num? then Some(Compare(op, have.n, want.n))
        else if op == Eq then Some(have.name == want.name)
        else if op == Ne then Some(have.name != want.name)
        else None
  }

  // ---- Bounds ----

  const LOWEST := -0x8000_0000
  const HIGHEST := 0x8000_0000

  datatype Bounds = Bounds(lo: int, hi: int, excluded: set<int>)

  predicate About(c: Cond, v: Name) { c.VarIs? && c.v == v && c.value.Num? }

  function Narrowed(b: Bounds, op: Op, n: int): Bounds {
    match op
    case Eq => b.(lo := Larger(b.lo, n), hi := Smaller(b.hi, n))
    case Ne => b.(excluded := b.excluded + {n})
    case Lt => b.(hi := Smaller(b.hi, n - 1))
    case Le => b.(hi := Smaller(b.hi, n))
    case Gt => b.(lo := Larger(b.lo, n + 1))
    case Ge => b.(lo := Larger(b.lo, n))
  }

  function Larger(a: int, b: int): int { if a > b then a else b }

  function Smaller(a: int, b: int): int { if a < b then a else b }

  predicate Within(x: int, b: Bounds) { b.lo <= x <= b.hi && x !in b.excluded }

  /** `x` meets every integer comparison on `v`. */
  predicate Meets(x: int, conds: seq<Cond>, v: Name) {
    forall i :: 0 <= i < |conds| && About(conds[i], v) ==> Compare(conds[i].op, x, conds[i].value.n)
  }

  lemma NarrowedIsExact(x: int, b: Bounds, op: Op, n: int)
    ensures Within(x, Narrowed(b, op, n)) <==> Within(x, b) && Compare(op, x, n)
  {}

  ghost predicate Satisfiable(conds: seq<Cond>, v: Name) {
    exists x :: -0x8000_0000 <= x <= 0x8000_0000 && Meets(x, conds, v)
  }

  /** The values `v` may take under the comparisons; none when they contradict,
      that is, exactly when no integer in the range meets them all. */
  method VarBounds(conds: seq<Cond>, v: Name) returns (bounds: Option<Bounds>)
    ensures bounds.None? <==> !Satisfiable(conds, v)
    ensures bounds.Some? ==>
              && (forall x :: -0x8000_0000 <= x <= 0x8000_0000 ==> (Meets(x, conds, v) <==> Within(x, bounds.value)))
              && Within(bounds.value.lo, bounds.value) && Within(bounds.value.hi, bounds.value)
  {
    var b := Bounds(LOWEST, HIGHEST, {});
    var i := 0;
    while i < |conds|
      invariant 0 <= i <= |conds|
      invariant LOWEST <= b.lo && b.hi <= HIGHEST
      invariant forall x :: LOWEST <= x <= HIGHEST ==> (Meets(x, conds[..i], v) <==> Within(x, b))
    {
      var c := conds[i];
      MeetsOneMore(conds, i, v);
      if c.VarIs? && c.v == v && c.value.Num? {
        forall x ensures Within(x, Narrowed(b, c.op, c.value.n)) <==> Within(x, b) && Compare(c.op, x, c.value.n) {
          NarrowedIsExact(x, b, c.op, c.value.n);
        }
        b := Narrowed(b, c.op, c.value.n);
      }
      i := i + 1;
    }
    assert conds[..i] == conds;
    ghost var full := b;
    var lo, hi := b.lo, b.hi;
    while lo <= hi && lo in b.excluded
      invariant b.lo <= lo
      invariant forall x :: Within(x, b) ==> lo <= x
      decreases hi - lo
    {
      lo := lo + 1;
    }
    while hi >= lo && hi in b.excluded
      invariant hi <= b.hi && b.lo <= lo
      invariant lo <= b.hi ==> (lo <= hi ==> lo !in b.excluded)
      invariant forall x :: Within(x, b) ==> lo <= x <= hi
      decreases hi - lo
    {
      hi := hi - 1;
    }
    if lo <= hi {
      bounds := Some(Bounds(lo, hi, b.excluded));
      assert Within(lo, full) && Meets(lo, conds, v);
    } else {
      bounds := None;
    }
  }

  lemma MeetsOneMore(conds: seq<Cond>, i: nat, v: Name)
    requires i < |conds|
    ensures forall x :: Meets(x, conds[..i + 1], v) <==>
              Meets(x, conds[..i], v) && (About(conds[i], v) ==> Compare(conds[i].op, x, conds[i].value.n))
  {
    assert conds[..i + 1] == conds[..i] + [conds[i]];
    assert forall k :: 0 <= k < i ==> conds[..i + 1][k] == conds[..i][k];
    forall x
      ensures Meets(x, conds[..i + 1], v) <==>
              Meets(x, conds[..i], v) && (About(conds[i], v) ==> Compare(conds[i].op, x, conds[i].value.n))
    {
      assert conds[..i + 1][i] == conds[i];
    }
  }

  // ---- Consistency with the path's own conditions ----

  ghost predicate Consistent(when_: seq<Cond>, c: Cond) {
    match c
    case KeyIs(key, is_) => KeyIs(key, !is_) !in when_
    case VarIs(v, _, _) => Satisfiable(when_ + [c], v)
  }

  method CheckConsistent(when_: seq<Cond>, c: Cond) returns (ok: bool)
    ensures ok == Consistent(when_, c)
  {
    match c
    case KeyIs(key, is_) =>
      ok := KeyIs(key, !is_) !in when_;
    case VarIs(v, _, _) =>
      var bounds := VarBounds(when_ + [c], v);
      ok := bounds.Some?;
  }

  /** Every var of the state is in the range the bounds start from. */
  ghost predicate InRange(s: Store) {
    forall v :: -0x8000_0000 <= Get(s, v) <= 0x8000_0000
  }

  /** A condition that holds together with the path's is consistent with them. */
  lemma TrueIsConsistent(when_: seq<Cond>, c: Cond, s: Store, sigma: Symbols)
    requires AllHold(when_, s, sigma) && InRange(s) && Holds(c, s, sigma)
    ensures Consistent(when_, c)
  {
    match c
    case KeyIs(key, is_) =>
      assert forall i :: 0 <= i < |when_| ==> Holds(when_[i], s, sigma);
    case VarIs(v, _, _) =>
      var all := when_ + [c];
      forall i | 0 <= i < |all| && About(all[i], v)
        ensures Compare(all[i].op, Get(s, v), all[i].value.n)
      {
        assert Holds(all[i], s, sigma);
      }
      assert Meets(Get(s, v), all, v);
  }

  // ---- Feasibility ----

  predicate Numeric(c: Cond) { c.VarIs? ==> c.value.Num? }

  /** Conditions that do not contradict each other, key by key and var by var. */
  ghost predicate Coherent(when_: seq<Cond>) {
    && (forall key :: KeyIs(key, true) in when_ ==> KeyIs(key, false) !in when_)
    && (forall v :: Satisfiable(when_, v))
  }

  lemma NothingIsCoherent()
    ensures Coherent([])
  {
    forall v: Name
      ensures Satisfiable([], v)
    {
      assert Meets(0, [], v);
    }
  }

  lemma CoherentGrows(when_: seq<Cond>, c: Cond)
    requires Coherent(when_) && Consistent(when_, c)
    ensures Coherent(when_ + [c])
  {
    forall v: Name
      ensures Satisfiable(when_ + [c], v)
    {
      if !(c.VarIs? && c.v == v) {
        assert Satisfiable(when_, v);
        var x :| LOWEST <= x <= HIGHEST && Meets(x, when_, v);
        OtherVar(x, when_, c, v);
      }
    }
  }

  lemma OtherVar(x: int, when_: seq<Cond>, c: Cond, v: Name)
    requires Meets(x, when_, v) && !About(c, v)
    ensures Meets(x, when_ + [c], v)
  {
    var all := when_ + [c];
    forall i | 0 <= i < |all| && About(all[i], v)
      ensures Compare(all[i].op, x, all[i].value.n)
    {
      assert all[i] == when_[i];
    }
  }

  ghost function Witness(when_: seq<Cond>, v: Name): (x: int)
    requires Satisfiable(when_, v)
    ensures LOWEST <= x <= HIGHEST && Meets(x, when_, v)
  {
    var x :| LOWEST <= x <= HIGHEST && Meets(x, when_, v); x
  }

  /** Coherent numeric conditions hold together in some state in range. */
  lemma CoherentIsFeasible(when_: seq<Cond>, sigma: Symbols) returns (s: Store)
    requires Coherent(when_) && (forall i :: 0 <= i < |when_| ==> Numeric(when_[i]))
    ensures InRange(s) && AllHold(when_, s, sigma)
  {
    var keys := set c | c in when_ && c.KeyIs? && c.is_ :: c.key;
    var names := set c | c in when_ && c.VarIs? :: c.v;
    s := Store(keys, map v | v in names :: Witness(when_, v));
    forall i | 0 <= i < |when_|
      ensures Holds(when_[i], s, sigma)
    {
      var c := when_[i];
      assert c in when_;
      match c
      case KeyIs(key, is_) =>
        if is_ {
          assert key in keys;
        } else {
          assert KeyIs(key, false) in when_;
        }
      case VarIs(v, _, _) =>
        assert v in names;
        assert About(when_[i], v);
    }
  }
}
