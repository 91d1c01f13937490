/** The order of the compiled paths: where two runs part, the one that jumps is
    told first. So a list cut off at its limit keeps the taken sides. */
module EventOrder {
  import opened Seqs
  import opened EventConditions
  import opened EventCompiler
  import opened EventMeaning
  import opened Wrappers

  predicate SameControl(c: Config, d: Config) {
    c.at == d.at && c.i == d.i && c.stack == d.stack && c.halted == d.halted
  }

  /** Two runs go the same way for `m` steps, and then the first jumps at a branch
      where the second does not. */
  predicate Part(script: Script, c: Config, d: Config, sigma: Symbols, tau: Symbols, m: nat)
    requires InScript(script, c) && InScript(script, d)
    decreases m
  {
    && SameControl(c, d) && !c.halted
    && if m == 0 then
         c.i < |script[c.at]| && IsBranch(script[c.at][c.i])
           && Jumps(script[c.at][c.i], c, sigma) && !Jumps(script[c.at][c.i], d, tau)
       else
         StepStaysInScript(script, c, sigma);
         StepStaysInScript(script, d, tau);
         Part(script, Step(script, c, sigma), Step(script, d, tau), sigma, tau, m - 1)
  }

  /** One run from a described state: what it starts with, and how long. */
  ghost predicate Told(script: Script, sigma: Symbols, s0: Store, st: PathState, c: Config, h: History, n: nat) {
    && InScript(script, c) && InRange(s0) && Describes(st, c, h, s0, sigma)
    && Regular(script, c, h, sigma, n) && Run(script, c, sigma, n).halted
  }

  /** Path `j` tells the first run and path `k`, later on the list, the second. */
  ghost predicate InThisOrder(paths: seq<Path>, j: nat, k: nat, final: Config, other: Config, s0: Store, t0: Store,
      sigma: Symbols, tau: Symbols)
  {
    j < k < |paths| && TellsRun(paths[j], final, s0, sigma) && TellsRun(paths[k], other, t0, tau)
  }

  /** The side of a branch a run takes, as the compiler goes on with it. */
  ghost predicate Chosen(cmd: Cmd, st: PathState, chosen: PathState, jumps: bool)
    requires IsBranch(cmd)
  {
    var noted := Noted(cmd, st);
    match Decide(Tested(cmd, st), st)
    case Fork(k) => chosen == Assume(noted, if jumps then k else Negate(k))
    case Both => chosen == noted
    case Take => chosen == noted && jumps
    case Skip => chosen == noted && !jumps
  }

  lemma ChosenSide(script: Script, sigma: Symbols, s0: Store, st: PathState, c: Config, h: History, n: nat)
    returns (chosen: PathState)
    requires Told(script, sigma, s0, st, c, h, n)
    requires c.i < |script[c.at]| && IsBranch(script[c.at][c.i])
    ensures var cmd := script[c.at][c.i];
      Chosen(cmd, st, chosen, Jumps(cmd, c, sigma)) && chosen.stack == st.stack && chosen.trail == st.trail
    ensures Told(script, sigma, s0, chosen, c, h, n)
  {
    hide InRange, FlagsMatch, VarsMatch, WatchMatches, Holds, Decide, Tested, Readable, AllHold, Jumps;
    var cmd := script[c.at][c.i];
    var noted := Noted(cmd, st);
    SameStores(st, noted, c, c, h, h, s0, sigma);
    var tested, jumps := Tested(cmd, st), Jumps(cmd, c, sigma);
    if tested.Some? {
      TestedIsTheTest(cmd, st, c, h, s0, sigma);
      DecisionIsRight(tested.value, st, c, h, s0, sigma);
    } else {
      NoConditionIsBoth(st);
    }
    chosen := noted;
    var decision := Decide(tested, st);
    if decision.Fork? {
      NegationIsExact(decision.cond, s0, sigma);
      chosen := Assume(noted, if jumps then decision.cond else Negate(decision.cond));
      AssumeHolds(noted, if jumps then decision.cond else Negate(decision.cond), s0, sigma);
      MoreAssumed(noted, chosen, c, h, s0, sigma);
    }
  }

  /** What is true of the rest of the run, once a step is known to describe. */
  lemma ToldNext(script: Script, sigma: Symbols, s0: Store, st: PathState, c: Config, h: History, n: nat,
      st': PathState)
    requires Told(script, sigma, s0, st, c, h, n)
    requires Describes(st', Step(script, c, sigma), NextHistory(script, c, h, sigma), s0, sigma)
    ensures n > 0 && InScript(script, Step(script, c, sigma))
    ensures Told(script, sigma, s0, st', Step(script, c, sigma), NextHistory(script, c, h, sigma), n - 1)
  {
    hide InRange, Step, NextHistory, Admissible, FlagsMatch, VarsMatch, WatchMatches, AllHold;
    StepStaysInScript(script, c, sigma);
  }

  lemma PartGoesOn(script: Script, c: Config, d: Config, sigma: Symbols, tau: Symbols, m: nat)
    requires InScript(script, c) && InScript(script, d) && m > 0 && Part(script, c, d, sigma, tau, m)
    ensures var c', d' := Step(script, c, sigma), Step(script, d, tau);
      && InScript(script, c') && InScript(script, d') && Part(script, c', d', sigma, tau, m - 1)
      && SameControl(c', d') && !c'.halted
  {
    hide Step;
    StepStaysInScript(script, c, sigma);
    StepStaysInScript(script, d, tau);
  }

  // ---- The order ----

  lemma {:induction false} JumpingIsTold(script: Script, rank: map<Label, nat>, sigma: Symbols, tau: Symbols,
      s0: Store, t0: Store, st: PathState, c: Config, d: Config, h: History, n: nat, o: nat, m: nat)
    returns (j: nat, k: nat)
    requires Ranked(script, rank)
    requires Told(script, sigma, s0, st, c, h, n) && Told(script, tau, t0, st, d, h, o)
    requires Part(script, c, d, sigma, tau, m)
    ensures InThisOrder(Paths(script, rank, c.at, c.i, st), j, k, Run(script, c, sigma, n), Run(script, d, tau, o),
              s0, t0, sigma, tau)
    decreases m, 2
  {
    hide Ranked, InRange, FlagsMatch, VarsMatch, WatchMatches, Holds, Plain, PlainStep, PlainHistory, InThisOrder,
        Decide, Tested, Jumps, Readable, Work, Unvisited, AllHold, Enter, Part, Regular, Run, Admissible;
    SameHere(script, c, d, sigma, tau, m);
    if c.i < |script[c.at]| && IsBranch(script[c.at][c.i]) {
      j, k := BranchInOrder(script, rank, sigma, tau, s0, t0, st, c, d, h, n, o, m);
      return;
    }
    NotDoneYet(script, c, d, sigma, tau, m);
    PartGoesOn(script, c, d, sigma, tau, m);
    var c', d' := Step(script, c, sigma), Step(script, d, tau);
    var h' := NextHistory(script, c, h, sigma);
    RunOn(script, c, sigma, n, s0, st, h);
    RunOn(script, d, tau, o, t0, st, h);
    var cmd := script[c.at][c.i];
    if IsPlain(cmd) {
      PlainDescribes(cmd, st, c, h, s0, sigma);
      PlainDescribes(cmd, st, d, h, t0, tau);
      PlainMoves(cmd, c, sigma);
      ToldNext(script, sigma, s0, st, c, h, n, Plain(cmd, st));
      ToldNext(script, tau, t0, st, d, h, o, Plain(cmd, st));
      j, k := JumpingIsTold(script, rank, sigma, tau, s0, t0, Plain(cmd, st), c', d', h', n - 1, o - 1, m - 1);
    } else if cmd.Return? {
      var top := st.stack[|st.stack| - 1];
      var st' := st.(stack := st.stack[..|st.stack| - 1]);
      SameStores(st, st', c, c', h, h', s0, sigma);
      SameStores(st, st', d, d', h, h', t0, tau);
      ToldNext(script, sigma, s0, st, c, h, n, st');
      ToldNext(script, tau, t0, st, d, h, o, st');
      j, k := JumpingIsTold(script, rank, sigma, tau, s0, t0, st', c', d', h', n - 1, o - 1, m - 1);
    } else {
      j, k := EnteredInOrder(script, rank, sigma, tau, s0, t0, st, c, d, h, n, o, m);
    }
  }

  lemma SameHere(script: Script, c: Config, d: Config, sigma: Symbols, tau: Symbols, m: nat)
    requires InScript(script, c) && InScript(script, d) && Part(script, c, d, sigma, tau, m)
    ensures SameControl(c, d) && !c.halted
  {}

  /** Runs that have not parted yet are not at an end. */
  lemma NotDoneYet(script: Script, c: Config, d: Config, sigma: Symbols, tau: Symbols, m: nat)
    requires InScript(script, c) && InScript(script, d) && Part(script, c, d, sigma, tau, m)
    requires c.i < |script[c.at]| ==> !IsBranch(script[c.at][c.i])
    ensures m > 0 && c.i < |script[c.at]| && !script[c.at][c.i].End?
    ensures script[c.at][c.i].Return? ==> c.stack != []
    ensures var cmd := script[c.at][c.i];
      !IsPlain(cmd) && !cmd.Return? ==> cmd.Goto? || cmd.Call?
  {
    hide PlainStep, Jumps;
    if m > 0 {
      PartGoesOn(script, c, d, sigma, tau, m);
    }
  }

  lemma RunOn(script: Script, c: Config, sigma: Symbols, n: nat, s0: Store, st: PathState, h: History)
    requires Told(script, sigma, s0, st, c, h, n)
    ensures n > 0 && InScript(script, Step(script, c, sigma)) && Admissible(script, c, h, sigma)
    ensures Run(script, c, sigma, n) == Run(script, Step(script, c, sigma), sigma, n - 1)
  {
    hide Step, InRange, FlagsMatch, VarsMatch, WatchMatches, AllHold, Admissible;
    StepStaysInScript(script, c, sigma);
  }

  /** Both follow the same goto or call. */
  lemma {:induction false} EnteredInOrder(script: Script, rank: map<Label, nat>, sigma: Symbols, tau: Symbols,
      s0: Store, t0: Store, st: PathState, c: Config, d: Config, h: History, n: nat, o: nat, m: nat)
    returns (j: nat, k: nat)
    requires Ranked(script, rank)
    requires Told(script, sigma, s0, st, c, h, n) && Told(script, tau, t0, st, d, h, o)
    requires m > 0 && Part(script, c, d, sigma, tau, m) && c.i < |script[c.at]|
    requires var cmd := script[c.at][c.i];
      (cmd.Goto? || cmd.Call? || IsBranch(cmd))
      && (IsBranch(cmd) ==> Jumps(cmd, c, sigma) && SameControl(c, d) && Jumps(cmd, d, tau))
    ensures InThisOrder(Enter(script, rank, c.at, c.i, st), j, k, Run(script, c, sigma, n), Run(script, d, tau, o),
              s0, t0, sigma, tau)
    decreases m, 0
  {
    hide Ranked, InRange, FlagsMatch, VarsMatch, WatchMatches, Holds, Plain, InThisOrder, Decide, Tested, Readable,
        Work, Unvisited, AllHold, Paths, Part, Regular, Run, Jumps;
    SameHere(script, c, d, sigma, tau, m);
    PartGoesOn(script, c, d, sigma, tau, m);
    RunOn(script, c, sigma, n, s0, st, h);
    RunOn(script, d, tau, o, t0, st, h);
    var cmd := script[c.at][c.i];
    var target := Target(cmd);
    NotPlain(cmd);
    var c', d' := Step(script, c, sigma), Step(script, d, tau);
    var h' := NextHistory(script, c, h, sigma);
    assert c' == FollowStep(script, cmd, c) && d' == FollowStep(script, cmd, d);
    var st' := if IsCall(cmd) then st.(stack := st.stack + [Frame(c.at, c.i + 1)])
               else st.(trail := st.trail + {target});
    SameStores(st, st', c, c', h, h', s0, sigma);
    SameStores(st, st', d, d', h, h', t0, tau);
    ToldNext(script, sigma, s0, st, c, h, n, st');
    ToldNext(script, tau, t0, st, d, h, o, st');
    j, k := JumpingIsTold(script, rank, sigma, tau, s0, t0, st', c', d', h', n - 1, o - 1, m - 1);
  }

  /** At a branch both go the same way, or the parting is here. */
  lemma {:induction false} BranchInOrder(script: Script, rank: map<Label, nat>, sigma: Symbols, tau: Symbols,
      s0: Store, t0: Store, st: PathState, c: Config, d: Config, h: History, n: nat, o: nat, m: nat)
    returns (j: nat, k: nat)
    requires Ranked(script, rank)
    requires Told(script, sigma, s0, st, c, h, n) && Told(script, tau, t0, st, d, h, o)
    requires Part(script, c, d, sigma, tau, m) && SameControl(c, d)
    requires c.i < |script[c.at]| && IsBranch(script[c.at][c.i])
    ensures InThisOrder(Paths(script, rank, c.at, c.i, st), j, k, Run(script, c, sigma, n), Run(script, d, tau, o),
              s0, t0, sigma, tau)
    decreases m, 1
  {
    hide Ranked, Told, InThisOrder, Chosen, Paths, Enter, Part, Regular, Run, Jumps, Work, Unvisited;
    ToldIsOn(script, sigma, s0, st, c, h, n);
    ToldIsOn(script, tau, t0, st, d, h, o);
    var cmd := script[c.at][c.i];
    var x := ChosenSide(script, sigma, s0, st, c, h, n);
    var y := ChosenSide(script, tau, t0, st, d, h, o);
    SameWayOrHere(script, c, d, sigma, tau, m);
    if m == 0 {
      var p := JumperHasPath(script, rank, sigma, s0, x, c, h, n);
      var q := StayerHasPath(script, rank, tau, t0, y, d, h, o);
      j, k := PartingIsInOrder(script, rank, c.at, c.i, st, x, y, p, q, Run(script, c, sigma, n),
        Run(script, d, tau, o), s0, t0, sigma, tau);
    } else {
      SameChoice(cmd, st, x, y, Jumps(cmd, c, sigma));
      if Jumps(cmd, c, sigma) {
        j, k := EnteredInOrder(script, rank, sigma, tau, s0, t0, x, c, d, h, n, o, m);
      } else {
        j, k := StayedInOrder(script, rank, sigma, tau, s0, t0, x, c, d, h, n, o, m);
      }
      j, k := SideInOrder(script, rank, c.at, c.i, st, x, Jumps(cmd, c, sigma), j, k, Run(script, c, sigma, n),
        Run(script, d, tau, o), s0, t0, sigma, tau);
    }
  }

  lemma SameWayOrHere(script: Script, c: Config, d: Config, sigma: Symbols, tau: Symbols, m: nat)
    requires InScript(script, c) && InScript(script, d) && Part(script, c, d, sigma, tau, m)
    requires c.i < |script[c.at]| && IsBranch(script[c.at][c.i]) && SameControl(c, d)
    ensures var cmd := script[c.at][c.i];
      if m == 0 then Jumps(cmd, c, sigma) && !Jumps(cmd, d, tau) else Jumps(cmd, c, sigma) == Jumps(cmd, d, tau)
  {
    hide Jumps;
    if m > 0 {
      PartGoesOn(script, c, d, sigma, tau, m);
      NotPlain(script[c.at][c.i]);
    }
  }

  lemma SameChoice(cmd: Cmd, st: PathState, x: PathState, y: PathState, jumps: bool)
    requires IsBranch(cmd) && Chosen(cmd, st, x, jumps) && Chosen(cmd, st, y, jumps)
    ensures x == y
  {
    hide Decide, Tested, Noted;
  }

  lemma {:induction false} StayedInOrder(script: Script, rank: map<Label, nat>, sigma: Symbols, tau: Symbols,
      s0: Store, t0: Store, st: PathState, c: Config, d: Config, h: History, n: nat, o: nat, m: nat)
    returns (j: nat, k: nat)
    requires Ranked(script, rank)
    requires Told(script, sigma, s0, st, c, h, n) && Told(script, tau, t0, st, d, h, o)
    requires m > 0 && Part(script, c, d, sigma, tau, m) && SameControl(c, d)
    requires c.i < |script[c.at]| && IsBranch(script[c.at][c.i])
    requires !Jumps(script[c.at][c.i], c, sigma) && !Jumps(script[c.at][c.i], d, tau)
    ensures InThisOrder(Paths(script, rank, c.at, c.i + 1, st), j, k, Run(script, c, sigma, n),
              Run(script, d, tau, o), s0, t0, sigma, tau)
    decreases m, 0
  {
    hide Ranked, InRange, FlagsMatch, VarsMatch, WatchMatches, InThisOrder, AllHold, Paths, Part, Regular, Run, Jumps,
        Admissible;
    PartGoesOn(script, c, d, sigma, tau, m);
    RunOn(script, c, sigma, n, s0, st, h);
    RunOn(script, d, tau, o, t0, st, h);
    NotPlain(script[c.at][c.i]);
    var c', d' := Step(script, c, sigma), Step(script, d, tau);
    SameStores(st, st, c, c', h, h, s0, sigma);
    SameStores(st, st, d, d', h, h, t0, tau);
    ToldNext(script, sigma, s0, st, c, h, n, st);
    ToldNext(script, tau, t0, st, d, h, o, st);
    j, k := JumpingIsTold(script, rank, sigma, tau, s0, t0, st, c', d', h, n - 1, o - 1, m - 1);
  }

  lemma JumperHasPath(script: Script, rank: map<Label, nat>, sigma: Symbols, s0: Store, st: PathState, c: Config,
      h: History, n: nat) returns (p: Path)
    requires Ranked(script, rank) && Told(script, sigma, s0, st, c, h, n)
    requires c.i < |script[c.at]| && IsBranch(script[c.at][c.i]) && Jumps(script[c.at][c.i], c, sigma)
    ensures IsIn(p, Enter(script, rank, c.at, c.i, st)) && TellsRun(p, Run(script, c, sigma, n), s0, sigma)
  {
    hide Ranked, InRange, Regular, Run, Jumps, Enter, IsIn, TellsRun, Describes;
    ToldIsOn(script, sigma, s0, st, c, h, n);
    p := EnteringHasPath(script, rank, sigma, s0, st, c, h, n);
  }

  lemma ToldIsOn(script: Script, sigma: Symbols, s0: Store, st: PathState, c: Config, h: History, n: nat)
    requires Told(script, sigma, s0, st, c, h, n)
    ensures n > 0 && InScript(script, c) && StackIn(script, st.stack)
  {
    hide InRange, FlagsMatch, VarsMatch, WatchMatches, AllHold, Regular;
  }

  lemma StayerHasPath(script: Script, rank: map<Label, nat>, sigma: Symbols, s0: Store, st: PathState, c: Config,
      h: History, n: nat) returns (p: Path)
    requires Ranked(script, rank) && Told(script, sigma, s0, st, c, h, n)
    requires c.i < |script[c.at]| && IsBranch(script[c.at][c.i]) && !Jumps(script[c.at][c.i], c, sigma)
    ensures IsIn(p, Paths(script, rank, c.at, c.i + 1, st)) && TellsRun(p, Run(script, c, sigma, n), s0, sigma)
  {
    hide Ranked, InRange, FlagsMatch, VarsMatch, WatchMatches, AllHold, Regular, Run, Jumps, Paths, IsIn, TellsRun,
        Admissible;
    RunOn(script, c, sigma, n, s0, st, h);
    NotPlain(script[c.at][c.i]);
    var c' := Step(script, c, sigma);
    SameStores(st, st, c, c', h, h, s0, sigma);
    ToldNext(script, sigma, s0, st, c, h, n, st);
    p := RunHasPath(script, rank, sigma, s0, st, c', h, n - 1);
  }

  /** The paths of the taken side come before those of the other. */
  lemma PartingIsInOrder(script: Script, rank: map<Label, nat>, here: Label, i: nat, st: PathState, x: PathState,
      y: PathState, p: Path, q: Path, final: Config, other: Config, s0: Store, t0: Store, sigma: Symbols, tau: Symbols)
    returns (j: nat, k: nat)
    requires Ranked(script, rank) && here in script && StackIn(script, st.stack) && i < |script[here]|
    requires IsBranch(script[here][i]) && StackIn(script, x.stack) && StackIn(script, y.stack)
    requires Chosen(script[here][i], st, x, true) && Chosen(script[here][i], st, y, false)
    requires IsIn(p, Enter(script, rank, here, i, x)) && IsIn(q, Paths(script, rank, here, i + 1, y))
    requires TellsRun(p, final, s0, sigma) && TellsRun(q, other, t0, tau)
    ensures InThisOrder(Paths(script, rank, here, i, st), j, k, final, other, s0, t0, sigma, tau)
  {
    hide Ranked, Decide, Tested, Noted, Work, Unvisited, Enter, Plain, TellsRun;
    var cmd := script[here][i];
    NotPlain(cmd);
    var taken, rest := Enter(script, rank, here, i, x), Paths(script, rank, here, i + 1, y);
    assert Paths(script, rank, here, i, st) == taken + rest;
    j, k := TwoIn(p, taken, q, rest);
  }

  lemma TwoIn(p: Path, x: seq<Path>, q: Path, y: seq<Path>) returns (j: nat, k: nat)
    requires IsIn(p, x) && IsIn(q, y)
    ensures j < k < |x + y| && (x + y)[j] == p && (x + y)[k] == q
  {
    j :| 0 <= j < |x| && x[j] == p;
    var l: nat :| 0 <= l < |y| && y[l] == q;
    k := |x| + l;
  }

  /** What is in order on one side is so on the whole list. */
  lemma SideInOrder(script: Script, rank: map<Label, nat>, here: Label, i: nat, st: PathState, x: PathState,
      jumps: bool, j: nat, k: nat, final: Config, other: Config, s0: Store, t0: Store, sigma: Symbols, tau: Symbols)
    returns (j': nat, k': nat)
    requires Ranked(script, rank) && here in script && StackIn(script, st.stack) && i < |script[here]|
    requires IsBranch(script[here][i]) && StackIn(script, x.stack) && Chosen(script[here][i], st, x, jumps)
    requires InThisOrder(if jumps then Enter(script, rank, here, i, x) else Paths(script, rank, here, i + 1, x), j, k,
               final, other, s0, t0, sigma, tau)
    ensures InThisOrder(Paths(script, rank, here, i, st), j', k', final, other, s0, t0, sigma, tau)
  {
    hide Ranked, Decide, Tested, Noted, Work, Unvisited, Enter, Plain, TellsRun;
    var cmd := script[here][i];
    NotPlain(cmd);
    var noted := Noted(cmd, st);
    match Decide(Tested(cmd, st), st)
    case Fork(c) =>
      var taken := Enter(script, rank, here, i, Assume(noted, c));
      j', k' := Shifted(taken, Paths(script, rank, here, i + 1, Assume(noted, Negate(c))), jumps, j, k);
    case Both =>
      var taken := Enter(script, rank, here, i, noted);
      j', k' := Shifted(taken, Paths(script, rank, here, i + 1, noted), jumps, j, k);
    case Take => j', k' := j, k;
    case Skip => j', k' := j, k;
  }

  lemma Shifted(x: seq<Path>, y: seq<Path>, first: bool, j: nat, k: nat) returns (j': nat, k': nat)
    requires j < k < if first then |x| else |y|
    ensures j' < k' < |x + y|
    ensures (x + y)[j'] == (if first then x[j] else y[j]) && (x + y)[k'] == if first then x[k] else y[k]
  {
    j', k' := if first then j else |x| + j, if first then k else |x| + k;
  }

  /** Of two runs that keep to the compiler's assumptions and part at a branch,
      the one that jumps there is told by an earlier path than the other. */
  lemma TakenSideIsFirst(script: Script, rank: map<Label, nat>, sigma: Symbols, tau: Symbols, entry: Label, s0: Store,
      t0: Store, n: nat, o: nat, m: nat) returns (j: nat, k: nat)
    requires Ranked(script, rank) && entry in script && InRange(s0) && InRange(t0)
    requires Regular(script, Boot(entry, s0), Begun(entry), sigma, n) && Run(script, Boot(entry, s0), sigma, n).halted
    requires Regular(script, Boot(entry, t0), Begun(entry), tau, o) && Run(script, Boot(entry, t0), tau, o).halted
    requires Part(script, Boot(entry, s0), Boot(entry, t0), sigma, tau, m)
    ensures var paths := Paths(script, rank, entry, 0, Start(entry));
      && j < k < |paths|
      && TellsRun(paths[j], Run(script, Boot(entry, s0), sigma, n), s0, sigma)
      && TellsRun(paths[k], Run(script, Boot(entry, t0), tau, o), t0, tau)
  {
    hide Paths, Run, Regular, Ranked, InRange, Part, TellsRun, Describes;
    StartDescribes(entry, s0, sigma);
    StartDescribes(entry, t0, tau);
    j, k := JumpingIsTold(script, rank, sigma, tau, s0, t0, Start(entry), Boot(entry, s0), Boot(entry, t0),
      Begun(entry), n, o, m);
  }
}
