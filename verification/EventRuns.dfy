/** Runs that keep to the compiler's assumptions come to an end, so the compiled
    paths mean all of them. */
module EventRuns {
  import opened EventConditions
  import opened EventCompiler
  import opened EventMeaning

  /** However far it is followed, the run enters no label twice by goto and
      tests nothing the compiler has lost sight of. */
  ghost predicate AlwaysRegular(script: Script, c: Config, h: History, sigma: Symbols)
    requires InScript(script, c)
  {
    forall n: nat :: Regular(script, c, h, sigma, n)
  }

  lemma NextIsRegular(script: Script, c: Config, h: History, sigma: Symbols)
    requires InScript(script, c) && !c.halted && AlwaysRegular(script, c, h, sigma)
    ensures Admissible(script, c, h, sigma) && InScript(script, Step(script, c, sigma))
    ensures AlwaysRegular(script, Step(script, c, sigma), NextHistory(script, c, h, sigma), sigma)
  {
    hide Admissible, Step, NextHistory;
    StepStaysInScript(script, c, sigma);
    assert Regular(script, c, h, sigma, 1);
    forall n: nat ensures Regular(script, Step(script, c, sigma), NextHistory(script, c, h, sigma), sigma, n) {
      assert Regular(script, c, h, sigma, n + 1);
    }
  }

  /** Each step ends the run, uses up a label, or leaves less to do. */
  lemma StepUsesUp(script: Script, rank: map<Label, nat>, c: Config, h: History, sigma: Symbols)
    requires Ranked(script, rank) && InScript(script, c) && !c.halted && Admissible(script, c, h, sigma)
    ensures var d, k := Step(script, c, sigma), NextHistory(script, c, h, sigma);
      || d.halted
      || (InScript(script, d) && Unvisited(script, k.entered) < Unvisited(script, h.entered))
      || (InScript(script, d) && k.entered == h.entered
          && Work(script, rank, d.at, d.i, d.stack) < Work(script, rank, c.at, c.i, c.stack))
  {
    hide Work, Unvisited, Ranked, Jumps, PlainStep, PlainHistory, Readable;
    StepStaysInScript(script, c, sigma);
    if c.i < |script[c.at]| {
      var cmd := script[c.at][c.i];
      NextWork(script, rank, c.at, c.i, c.stack);
      if IsPlain(cmd) {
        PlainStepMoves(cmd, c, h, sigma);
      } else if cmd.Return? && c.stack != [] {
        ReturnWork(script, rank, c.at, c.i, c.stack);
      } else if cmd.Goto? || cmd.Call? || (IsBranch(cmd) && Jumps(cmd, c, sigma)) {
        if Target(cmd) in script {
          if IsCall(cmd) {
            CallWork(script, rank, c.at, c.i, c.stack, Target(cmd));
          } else {
            JumpUsesUpALabel(script, h.entered, Target(cmd));
          }
        }
      }
    }
  }

  lemma PlainStepMoves(cmd: Cmd, c: Config, h: History, sigma: Symbols)
    requires IsPlain(cmd)
    ensures var d := PlainStep(cmd, c, sigma);
      d.at == c.at && d.i == c.i + 1 && d.stack == c.stack && PlainHistory(cmd, h).entered == h.entered
  {
    hide Meaning, Get;
  }

  /** A regular run ends. */
  lemma {:induction false} RegularRunEnds(script: Script, rank: map<Label, nat>, c: Config, h: History,
      sigma: Symbols) returns (n: nat)
    requires Ranked(script, rank) && InScript(script, c) && AlwaysRegular(script, c, h, sigma)
    ensures Run(script, c, sigma, n).halted
    decreases Unvisited(script, h.entered), Work(script, rank, c.at, c.i, c.stack)
  {
    hide AlwaysRegular, Admissible, Step, NextHistory, Ranked, Work, Unvisited;
    if c.halted {
      n := 0;
    } else {
      NextIsRegular(script, c, h, sigma);
      StepUsesUp(script, rank, c, h, sigma);
      var d := Step(script, c, sigma);
      if d.halted {
        n := 1;
      } else {
        var m := RegularRunEnds(script, rank, d, NextHistory(script, c, h, sigma), sigma);
        n := m + 1;
      }
    }
  }

  /** Every run from every initial state that keeps to the compiler's
      assumptions ends, and is told by an emitted path whose conditions held at
      the start: what the path does is exactly what the run did, and its notes
      name exactly the tests the compiler could not read and the missing label
      the run stopped at, if it did. A path without notes whose conditions held
      tells it too, and then the run stopped at no missing label, but at an end,
      a return with no caller or the end of a label. */
  lemma EveryRegularRunIsCompiled(script: Script, rank: map<Label, nat>, sigma: Symbols, entry: Label,
      s0: Store) returns (n: nat)
    requires Ranked(script, rank) && entry in script
    requires InRange(s0)
    requires AlwaysRegular(script, Boot(entry, s0), Begun(entry), sigma)
    ensures var paths := Paths(script, rank, entry, 0, Start(entry));
      var final := Run(script, Boot(entry, s0), sigma, n);
      && final.halted && InScript(script, final)
      && (exists k :: 0 <= k < |paths| && TellsRun(paths[k], final, s0, sigma)
            && paths[k].opaque_ == Untold(script, Boot(entry, s0), Begun(entry), sigma, n)
            && forall note :: StopsAtMissing(script, final, note) ==> note in paths[k].opaque_)
      && (forall k :: 0 <= k < |paths| && paths[k].opaque_ == {} && AllHold(paths[k].when_, s0, sigma) ==>
            TellsRun(paths[k], final, s0, sigma) && StopsProperly(script, final))
  {
    hide Run, TellsRun, Paths, AllHold, InRange, Untold, StopsAtMissing, StopsProperly;
    n := RegularRunEnds(script, rank, Boot(entry, s0), Begun(entry), sigma);
    assert Regular(script, Boot(entry, s0), Begun(entry), sigma, n);
    CompiledPathsMeanTheRun(script, rank, sigma, entry, s0, n);
    StopsAreThose(script, Boot(entry, s0), Begun(entry), sigma, n);
  }
}
