/** Walks along a relation on finitely many things: one can go on for ever
    exactly where one can come round in a circle. */
module Walks {
  import opened Seqs

  type Relation<!T> = (T, T) -> bool

  predicate IsWalk<T>(step: Relation<T>, w: seq<T>) {
    w != [] && forall i :: 0 <= i < |w| - 1 ==> step(w[i], w[i + 1])
  }

  ghost predicate Reaches<T(!new)>(step: Relation<T>, x: T, n: nat) {
    exists w :: IsWalk(step, w) && |w| == n + 1 && w[0] == x
  }

  /** There are walks of every length from `x`. */
  ghost predicate Endless<T(!new)>(step: Relation<T>, x: T) {
    forall n: nat :: Reaches(step, x, n)
  }

  /** A walk comes to a thing twice. */
  predicate ComesRound<T(==)>(w: seq<T>) {
    exists i, j :: 0 <= i < j < |w| && w[i] == w[j]
  }

  ghost predicate Circles<T(!new)>(step: Relation<T>, x: T) {
    exists w :: IsWalk(step, w) && w[0] == x && ComesRound(w)
  }

  // ---- Long walks come round ----

  lemma {:induction false} DistinctFit<T>(w: seq<T>, all: set<T>)
    requires forall x :: x in w ==> x in all
    requires !ComesRound(w)
    ensures |w| <= |all|
    decreases |w|
  {
    if w != [] {
      var n := |w| - 1;
      var rest := w[..n];
      forall i, j | 0 <= i < j < |rest| ensures rest[i] != rest[j] {
        assert w[i] != w[j];
      }
      forall x | x in rest ensures x in all - {w[n]} {
        var i :| 0 <= i < n && w[i] == x;
        assert w[i] != w[n];
      }
      DistinctFit(rest, all - {w[n]});
    }
  }

  /** Walking on in a circle that `w` comes to. */
  lemma {:induction false} RoundAndRound<T>(step: Relation<T>, w: seq<T>, i: nat, j: nat, p: nat, n: nat)
      returns (v: seq<T>)
    requires IsWalk(step, w) && i < j < |w| && w[i] == w[j] && p < j
    ensures IsWalk(step, v) && |v| == n + 1 && v[0] == w[p]
    decreases n
  {
    if n == 0 {
      v := [w[p]];
    } else {
      var rest := RoundAndRound(step, w, i, j, if p + 1 == j then i else p + 1, n - 1);
      v := [w[p]] + rest;
      OneStepMore(step, w[p], rest);
    }
  }

  lemma OneStepMore<T>(step: Relation<T>, x: T, w: seq<T>)
    requires IsWalk(step, w) && step(x, w[0])
    ensures IsWalk(step, [x] + w)
  {
    var v := [x] + w;
    forall i | 0 <= i < |v| - 1 ensures step(v[i], v[i + 1]) {
      assert v[i + 1] == w[i];
    }
  }

  lemma SubWalk<T>(step: Relation<T>, w: seq<T>, i: nat, j: nat)
    requires IsWalk(step, w) && i < j <= |w|
    ensures IsWalk(step, w[i..j])
  {
    var v := w[i..j];
    forall k | 0 <= k < |v| - 1 ensures step(v[k], v[k + 1]) {
      assert v[k] == w[i + k] && v[k + 1] == w[i + k + 1];
    }
  }

  /** Where steps lead to finitely many things only, one can walk for ever
      exactly where one can walk into a circle. */
  lemma EndlessIffCircles<T(!new)>(step: Relation<T>, x: T, all: set<T>)
    requires x in all && forall a, b :: step(a, b) ==> b in all
    ensures Endless(step, x) <==> Circles(step, x)
  {
    if Endless(step, x) {
      assert Reaches(step, x, |all|);
      var w :| IsWalk(step, w) && |w| == |all| + 1 && w[0] == x;
      WalkStaysIn(step, w, all);
      if !ComesRound(w) {
        DistinctFit(w, all);
        assert false;
      }
    }
    if Circles(step, x) {
      var w :| IsWalk(step, w) && w[0] == x && ComesRound(w);
      var i, j :| 0 <= i < j < |w| && w[i] == w[j];
      forall n: nat ensures Reaches(step, x, n) {
        var v := RoundAndRound(step, w, i, j, 0, n);
      }
    }
  }

  lemma WalkStaysIn<T(!new)>(step: Relation<T>, w: seq<T>, all: set<T>)
    requires IsWalk(step, w) && w[0] in all && forall a, b :: step(a, b) ==> b in all
    ensures forall y :: y in w ==> y in all
  {
    forall i | 0 <= i < |w| ensures w[i] in all {
      if i > 0 {
        assert step(w[i - 1], w[i - 1 + 1]);
      }
    }
  }

  /** `a` has a step to one of `some`. */
  ghost predicate StepsInto<T(!new)>(step: Relation<T>, a: T, some: set<T>) {
    exists b :: b in some && step(a, b)
  }

  lemma TakeStep<T(!new)>(step: Relation<T>, a: T, some: set<T>) returns (b: T)
    requires StepsInto(step, a, some)
    ensures b in some && step(a, b)
  {
    b :| b in some && step(a, b);
  }

  /** Where every one of some things has a step to another of them, walks among
      them are endless. */
  lemma {:induction false} NeverStuck<T(!new)>(step: Relation<T>, x: T, some: set<T>, n: nat) returns (w: seq<T>)
    requires x in some && forall a :: a in some ==> StepsInto(step, a, some)
    ensures IsWalk(step, w) && |w| == n + 1 && w[0] == x && forall y :: y in w ==> y in some
    decreases n
  {
    hide StepsInto, IsWalk;
    if n == 0 {
      w := [x];
      Standing(step, x);
    } else {
      var y := TakeStep(step, x, some);
      var rest := NeverStuck(step, y, some, n - 1);
      OneStepMore(step, x, rest);
      w := [x] + rest;
    }
  }

  lemma Standing<T>(step: Relation<T>, x: T)
    ensures IsWalk(step, [x])
  {}
}
