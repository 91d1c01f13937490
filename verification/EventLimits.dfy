/** The compiler's assumptions are needed: small scripts whose run no compiled
    path describes, one or more for each assumption that is dropped. */
module EventLimits {
  import opened Seqs
  import opened EventConditions
  import opened EventCompiler
  import opened EventMeaning
  import opened Wrappers

  ghost predicate NoPathTells(script: Script, rank: map<Label, nat>, s0: Store, sigma: Symbols, n: nat)
    requires Ranked(script, rank) && "A" in script
  {
    var final := EventMeaning.Run(script, Boot("A", s0), sigma, n);
    && final.halted
    && forall p :: p in Paths(script, rank, "A", 0, Start("A")) ==> !TellsRun(p, final, s0, sigma)
  }

  const ZERO := Store({}, map[])

  // ---- A var is tested after its value was lost ----

  const ADD_THEN_TEST: Script := map[
    "A" := [AddVar("X", Num(1)), IfVar("X", Eq, Num(1), "L", false), End],
    "L" := [Say("hi"), End]]

  const FLAT: map<Label, nat> := map["A" := 0, "L" := 0]

  predicate SaysAtL(script: Script, at: nat) {
    && "A" in script && "L" in script && script["L"] == [Say("hi"), End] && Ranked(script, FLAT)
    && at + 1 < |script["A"]| && script["A"][at + 1] == End
    && IsBranch(script["A"][at]) && Target(script["A"][at]) == "L" && !IsCall(script["A"][at])
  }

  function SaidAtL(st: PathState): PathState {
    Plain(Say("hi"), st.(trail := st.trail + {"L"}))
  }

  lemma JumpSays(script: Script, at: nat, st: PathState)
    requires SaysAtL(script, at) && "L" !in st.trail && StackIn(script, st.stack)
    ensures Enter(script, FLAT, "A", at, st) == [Finish(SaidAtL(st))]
    ensures Paths(script, FLAT, "A", at + 1, st) == [Finish(st)]
  {
    hide Consistent, Ranked, Work, Unvisited, Decide, Tested, Noted;
    var stl := st.(trail := st.trail + {"L"});
    assert Paths(script, FLAT, "L", 1, SaidAtL(st)) == [Finish(SaidAtL(st))];
    assert Paths(script, FLAT, "L", 0, stl) == [Finish(SaidAtL(st))];
  }

  lemma FlatIsRanked(script: Script)
    requires "A" in script && "L" in script && script.Keys == {"A", "L"}
    requires forall here, i :: here in script && 0 <= i < |script[here]| ==> !IsCall(script[here][i])
    ensures Ranked(script, FLAT)
  {}

  lemma PlainAt(script: Script, i: nat, st: PathState)
    requires "A" in script && Ranked(script, FLAT) && StackIn(script, st.stack)
    requires i < |script["A"]| && IsPlain(script["A"][i])
    ensures StackIn(script, Plain(script["A"][i], st).stack)
    ensures Paths(script, FLAT, "A", i, st) == Paths(script, FLAT, "A", i + 1, Plain(script["A"][i], st))
  {
    hide Ranked, Work, Unvisited, Decide, Tested, Noted, Plain, Enter;
    PlainKeeps(script["A"][i], st);
  }

  lemma BranchAt(script: Script, i: nat, st: PathState)
    requires "A" in script && Ranked(script, FLAT) && StackIn(script, st.stack)
    requires i < |script["A"]| && IsBranch(script["A"][i]) && Noted(script["A"][i], st) == st
    ensures match Decide(Tested(script["A"][i], st), st)
      case Take => Paths(script, FLAT, "A", i, st) == Enter(script, FLAT, "A", i, st)
      case Fork(c) =>
        Paths(script, FLAT, "A", i, st)
        == Enter(script, FLAT, "A", i, Assume(st, c)) + Paths(script, FLAT, "A", i + 1, Assume(st, Negate(c)))
      case Skip => Paths(script, FLAT, "A", i, st) == Paths(script, FLAT, "A", i + 1, st)
      case Both => true
  {
    hide Ranked, Work, Unvisited, Decide, Tested, Noted, Plain, Enter;
  }

  lemma TestOf(c: Cond, st: PathState, yes: int, no: int)
    requires c.VarIs? && c.value.Num? && c.v !in st.env && st.when_ == []
    requires LOWEST <= yes <= HIGHEST && Compare(c.op, yes, c.value.n)
    requires LOWEST <= no <= HIGHEST && !Compare(c.op, no, c.value.n)
    ensures Decide(Some(c), st) == Fork(c)
  {
    assert Meets(yes, [c], c.v) && Meets(no, [Negate(c)], c.v);
    assert [] + [c] == [c] && [] + [Negate(c)] == [Negate(c)];
    assert Satisfiable([] + [c], c.v) && Satisfiable([] + [Negate(c)], c.v);
  }

  lemma LostVarPaths()
    ensures Ranked(ADD_THEN_TEST, FLAT)
    ensures var st1 := Plain(AddVar("X", Num(1)), Start("A"));
            var stx := Assume(st1, VarIs("X", Eq, Num(1)));
            var said := Plain(Say("hi"), stx.(trail := stx.trail + {"L"}));
            Paths(ADD_THEN_TEST, FLAT, "A", 0, Start("A"))
            == [Finish(said)] + [Finish(Assume(st1, VarIs("X", Ne, Num(1))))]
  {
    hide Consistent, Satisfiable, Meets, Finish;
    var script, c := ADD_THEN_TEST, VarIs("X", Eq, Num(1));
    var st1 := Plain(AddVar("X", Num(1)), Start("A"));
    TestOf(c, st1, 1, 0);
    var stx, sty := Assume(st1, c), Assume(st1, Negate(c));
    var stl := stx.(trail := stx.trail + {"L"});
    var said := Plain(Say("hi"), stl);
    assert Paths(script, FLAT, "A", 2, sty) == [Finish(sty)];
    assert Paths(script, FLAT, "L", 1, said) == [Finish(said)];
    assert Paths(script, FLAT, "L", 0, stl) == [Finish(said)];
    assert Enter(script, FLAT, "A", 1, stx) == [Finish(said)];
    assert Paths(script, FLAT, "A", 1, st1) == [Finish(said)] + [Finish(sty)];
  }

  lemma LostVarRun(sigma: Symbols)
    ensures var final := EventMeaning.Run(ADD_THEN_TEST, Boot("A", ZERO), sigma, 4);
            final.halted && final.effects == [VarAdded("X", Num(1)), Said("hi")]
  {
    var script := ADD_THEN_TEST;
    var c1 := EventMeaning.Step(script, Boot("A", ZERO), sigma);
    var c2 := EventMeaning.Step(script, c1, sigma);
    var c3 := EventMeaning.Step(script, c2, sigma);
    var c4 := EventMeaning.Step(script, c3, sigma);
    assert c2.at == "L" && c4.halted && c4.effects == [VarAdded("X", Num(1)), Said("hi")];
    assert EventMeaning.Run(script, c3, sigma, 1) == c4;
    assert EventMeaning.Run(script, c2, sigma, 2) == c4;
    assert EventMeaning.Run(script, c1, sigma, 3) == c4;
  }

  /** The emitted condition speaks of the var before the script added to it. */
  lemma LostVarBreaksMeaning(sigma: Symbols)
    ensures Ranked(ADD_THEN_TEST, FLAT)
    ensures NoPathTells(ADD_THEN_TEST, FLAT, ZERO, sigma, 4)
  {
    hide Paths, EventMeaning.Run, Ranked;
    LostVarPaths();
    LostVarRun(sigma);
    var st1 := Plain(AddVar("X", Num(1)), Start("A"));
    var stx := Assume(st1, VarIs("X", Eq, Num(1)));
    var said := Finish(Plain(Say("hi"), stx.(trail := stx.trail + {"L"})));
    var quiet := Finish(Assume(st1, VarIs("X", Ne, Num(1))));
    assert said.when_[0] == VarIs("X", Eq, Num(1)) && !Holds(said.when_[0], ZERO, sigma);
    assert |quiet.does| == 1;
  }

  // ---- A subroutine that ends in a goto is called twice ----

  const CALL_TWICE: Script := map[
    "A" := [Call("S"), Call("S"), End],
    "S" := [Goto("T")],
    "T" := [Say("hi"), Return]]

  const TALL: map<Label, nat> := map["A" := 1, "S" := 0, "T" := 0]

  lemma TallIsRanked()
    ensures Ranked(CALL_TWICE, TALL)
  {}

  lemma CallGoesIn(script: Script, rank: map<Label, nat>, here: Label, i: nat, st: PathState)
    requires Ranked(script, rank) && here in script && StackIn(script, st.stack) && i < |script[here]|
    requires script[here][i].Call? && script[here][i].target in script
    ensures var pushed := st.(stack := st.stack + [Frame(here, i + 1)]);
      StackIn(script, pushed.stack)
      && Paths(script, rank, here, i, st) == Paths(script, rank, script[here][i].target, 0, pushed)
  {
    hide Ranked, Work, Unvisited, Decide, Tested, Noted, Plain;
    assert Paths(script, rank, here, i, st) == Enter(script, rank, here, i, st);
  }

  lemma GotoGoesOn(script: Script, rank: map<Label, nat>, here: Label, i: nat, st: PathState)
    requires Ranked(script, rank) && here in script && StackIn(script, st.stack) && i < |script[here]|
    requires script[here][i].Goto? && script[here][i].target in script
    ensures var target := script[here][i].target;
      Paths(script, rank, here, i, st)
      == if target in st.trail then [Finish(st)]
         else Paths(script, rank, target, 0, st.(trail := st.trail + {target}))
  {
    hide Ranked, Work, Unvisited, Decide, Tested, Noted, Plain;
    assert Paths(script, rank, here, i, st) == Enter(script, rank, here, i, st);
  }

  lemma ReturnGoesBack(script: Script, rank: map<Label, nat>, here: Label, i: nat, st: PathState)
    requires Ranked(script, rank) && here in script && StackIn(script, st.stack) && i < |script[here]|
    requires script[here][i].Return? && st.stack != []
    ensures var k := |st.stack| - 1;
      var popped := st.(stack := st.stack[..k]);
      && st.stack[k].at in script && StackIn(script, popped.stack)
      && Paths(script, rank, here, i, st) == Paths(script, rank, st.stack[k].at, st.stack[k].i, popped)
  {
    hide Ranked, Work, Unvisited, Decide, Tested, Noted, Plain, Enter;
  }

  lemma SayGoesOn(script: Script, rank: map<Label, nat>, here: Label, i: nat, st: PathState)
    requires Ranked(script, rank) && here in script && StackIn(script, st.stack) && i < |script[here]|
    requires script[here][i].Say?
    ensures var said := Plain(script[here][i], st);
      said.stack == st.stack && said.trail == st.trail
      && Paths(script, rank, here, i, st) == Paths(script, rank, here, i + 1, said)
  {
    hide Ranked, Work, Unvisited, Decide, Tested, Noted, Enter;
  }

  predicate CallsTwice(script: Script) {
    && "A" in script && "S" in script && "T" in script && |script["A"]| == 3 && |script["S"]| == 1 && |script["T"]| == 2
    && script["A"][0] == Call("S") && script["A"][1] == Call("S") && script["S"][0] == Goto("T")
    && script["T"][0] == Say("hi") && script["T"][1] == Return
  }

  lemma SecondCallIsCut(script: Script, rank: map<Label, nat>, st: PathState)
    requires CallsTwice(script) && Ranked(script, rank) && "T" in st.trail && st.stack == []
    ensures Paths(script, rank, "A", 1, st) == [Finish(st.(stack := st.stack + [Frame("A", 2)]))]
  {
    hide Paths, Ranked, Finish;
    CallGoesIn(script, rank, "A", 1, st);
    GotoGoesOn(script, rank, "S", 0, st.(stack := st.stack + [Frame("A", 2)]));
  }

  lemma FirstCallSpeaks(script: Script, rank: map<Label, nat>, st: PathState)
    requires CallsTwice(script) && Ranked(script, rank) && "T" !in st.trail && st.stack == []
    ensures Paths(script, rank, "A", 0, st)
         == Paths(script, rank, "A", 1, Plain(Say("hi"), st.(trail := st.trail + {"T"})))
  {
    hide Paths, Ranked, Finish;
    var pushed := st.(stack := st.stack + [Frame("A", 1)]);
    var there := pushed.(trail := pushed.trail + {"T"});
    var said := Plain(Say("hi"), there);
    CallGoesIn(script, rank, "A", 0, st);
    GotoGoesOn(script, rank, "S", 0, pushed);
    SayGoesOn(script, rank, "T", 0, there);
    ReturnGoesBack(script, rank, "T", 1, said);
    assert said.stack[..0] == [] && said.(stack := []) == Plain(Say("hi"), st.(trail := st.trail + {"T"}));
  }

  lemma CallTwiceDoes()
    ensures CallsTwice(CALL_TWICE)
  {}

  lemma CutPaths()
    ensures Ranked(CALL_TWICE, TALL)
    ensures |Paths(CALL_TWICE, TALL, "A", 0, Start("A"))| == 1
    ensures Paths(CALL_TWICE, TALL, "A", 0, Start("A"))[0].does == [Said("hi")]
  {
    hide Paths, Ranked, CallsTwice;
    TallIsRanked();
    CallTwiceDoes();
    var st := Start("A");
    FirstCallSpeaks(CALL_TWICE, TALL, st);
    SecondCallIsCut(CALL_TWICE, TALL, Plain(Say("hi"), st.(trail := st.trail + {"T"})));
  }

  lemma {:induction false} RunInTwo(script: Script, c: Config, sigma: Symbols, m: nat, n: nat)
    requires InScript(script, c)
    ensures InScript(script, EventMeaning.Run(script, c, sigma, m))
    ensures EventMeaning.Run(script, c, sigma, m + n)
         == EventMeaning.Run(script, EventMeaning.Run(script, c, sigma, m), sigma, n)
    decreases m
  {
    hide EventMeaning.Step;
    if m > 0 && !c.halted {
      StepStaysInScript(script, c, sigma);
      RunInTwo(script, EventMeaning.Step(script, c, sigma), sigma, m - 1, n);
    }
  }

  lemma OneCall(c: Config, sigma: Symbols)
    requires c.at == "A" && c.i < 2 && c.stack == [] && !c.halted
    ensures InScript(CALL_TWICE, c)
    ensures var d := EventMeaning.Run(CALL_TWICE, c, sigma, 4);
      d.at == "A" && d.i == c.i + 1 && d.stack == [] && !d.halted && |d.effects| == |c.effects| + 1
  {
    hide EventMeaning.Run;
    var script := CALL_TWICE;
    var c1 := EventMeaning.Step(script, c, sigma);
    assert c1 == c.(at := "S", i := 0, stack := [Frame("A", c.i + 1)]);
    var c2 := EventMeaning.Step(script, c1, sigma);
    assert c2 == c1.(at := "T");
    var c3 := FourSteps(script, c, sigma);
    assert c3 == c2.(i := 1, effects := c.effects + [Said("hi")]);
    OneStep(script, c3, sigma);
  }

  lemma TwiceRun(sigma: Symbols)
    ensures var final := EventMeaning.Run(CALL_TWICE, Boot("A", ZERO), sigma, 9);
            final.halted && |final.effects| == 2
  {
    hide EventMeaning.Run;
    var script, c := CALL_TWICE, Boot("A", ZERO);
    OneCall(c, sigma);
    RunInTwo(script, c, sigma, 4, 5);
    var d := EventMeaning.Run(script, c, sigma, 4);
    OneCall(d, sigma);
    RunInTwo(script, d, sigma, 4, 1);
    OneStep(script, EventMeaning.Run(script, d, sigma, 4), sigma);
  }

  lemma OneStep(script: Script, c: Config, sigma: Symbols)
    requires InScript(script, c) && !c.halted
    ensures EventMeaning.Run(script, c, sigma, 1) == EventMeaning.Step(script, c, sigma)
  {
    StepStaysInScript(script, c, sigma);
    assert EventMeaning.Run(script, EventMeaning.Step(script, c, sigma), sigma, 0)
         == EventMeaning.Step(script, c, sigma);
  }

  /** The trail is never taken back, so the second call's goto counts as a loop
      and its path is cut: the second line is never on it. */
  lemma SharedTailIsCut(sigma: Symbols)
    ensures Ranked(CALL_TWICE, TALL)
    ensures NoPathTells(CALL_TWICE, TALL, ZERO, sigma, 9)
  {
    hide Paths, EventMeaning.Run, Ranked;
    CutPaths();
    TwiceRun(sigma);
  }

  // ---- A branch is decided from what the path set too late ----

  const COMPARE_THEN_SET: Script := map[
    "A" := [CompareVar("X", Num(1)), SetVar("X", Num(1)), IfCompared(Eq, "L", false), End],
    "L" := [Say("hi"), End]]

  /** The script of a flag that is set between its check and the branch. */
  const CHECK_THEN_SET: Script := map[
    "A" := [CheckKey(Flag("F")), SetKey(Flag("F")), IfCode(Some(Eq), "L", false), End],
    "L" := [Say("hi"), End]]

  /** What both compile to: the branch is taken without a condition. */
  lemma TakenPaths(script: Script)
    requires script == COMPARE_THEN_SET || script == CHECK_THEN_SET
    ensures Ranked(script, FLAT)
    ensures |Paths(script, FLAT, "A", 0, Start("A"))| == 1
    ensures |Paths(script, FLAT, "A", 0, Start("A"))[0].does| == 2
  {
    hide Paths, Decide, Tested, Noted, Ranked, SaysAtL, Plain;
    if script == COMPARE_THEN_SET { CompareShape(); } else { CheckShape(); }
    var st := Plain(script["A"][1], Plain(script["A"][0], Start("A")));
    TakesIt(script, st);
    TakenOnly(script, st);
    SaidIsOneMore(st);
  }

  lemma CompareShape()
    ensures Ranked(COMPARE_THEN_SET, FLAT) && SaysAtL(COMPARE_THEN_SET, 2)
    ensures IsPlain(COMPARE_THEN_SET["A"][0]) && IsPlain(COMPARE_THEN_SET["A"][1])
  {
    hide Ranked;
    FlatIsRanked(COMPARE_THEN_SET);
  }

  lemma CheckShape()
    ensures Ranked(CHECK_THEN_SET, FLAT) && SaysAtL(CHECK_THEN_SET, 2)
    ensures IsPlain(CHECK_THEN_SET["A"][0]) && IsPlain(CHECK_THEN_SET["A"][1])
  {
    hide Ranked;
    FlatIsRanked(CHECK_THEN_SET);
  }

  lemma SymbolShape()
    ensures Ranked(SET_SYMBOL_THEN_TEST, FLAT) && SaysAtL(SET_SYMBOL_THEN_TEST, 1)
    ensures IsPlain(SET_SYMBOL_THEN_TEST["A"][0])
  {
    hide Ranked;
    FlatIsRanked(SET_SYMBOL_THEN_TEST);
  }

  lemma OrderShape()
    ensures Ranked(SET_SYMBOL_THEN_ORDER, FLAT) && SaysAtL(SET_SYMBOL_THEN_ORDER, 1)
    ensures IsPlain(SET_SYMBOL_THEN_ORDER["A"][0])
  {
    hide Ranked;
    FlatIsRanked(SET_SYMBOL_THEN_ORDER);
  }

  lemma FlagShape()
    ensures Ranked(CHECK_THEN_GE, FLAT) && SaysAtL(CHECK_THEN_GE, 1)
    ensures IsPlain(CHECK_THEN_GE["A"][0])
  {
    hide Ranked;
    FlatIsRanked(CHECK_THEN_GE);
  }

  lemma SaidIsOneMore(st: PathState)
    ensures Finish(SaidAtL(st)).does == st.does + [Said("hi")] && Finish(SaidAtL(st)).when_ == st.when_
    ensures Finish(st).does == st.does && Finish(st).when_ == st.when_
  {}

  lemma TakenOnly(script: Script, st: PathState)
    requires SaysAtL(script, 2) && IsPlain(script["A"][0]) && IsPlain(script["A"][1])
    requires st == Plain(script["A"][1], Plain(script["A"][0], Start("A")))
    requires Decide(Tested(script["A"][2], st), st) == Take && Noted(script["A"][2], st) == st
    ensures Paths(script, FLAT, "A", 0, Start("A")) == [Finish(SaidAtL(st))]
  {
    hide Paths, Enter, Decide, Tested, Noted, Ranked, Plain, SaidAtL, Finish;
    PlainAt(script, 0, Start("A"));
    PlainAt(script, 1, Plain(script["A"][0], Start("A")));
    TrailStays(script, st);
    JumpSays(script, 2, st);
    BranchAt(script, 2, st);
  }

  lemma TrailStays(script: Script, st: PathState)
    requires "A" in script && |script["A"]| > 1 && IsPlain(script["A"][0]) && IsPlain(script["A"][1])
    requires st == Plain(script["A"][1], Plain(script["A"][0], Start("A")))
    ensures "L" !in st.trail && st.stack == []
  {
    hide Plain;
    PlainKeeps(script["A"][0], Start("A"));
    PlainKeeps(script["A"][1], Plain(script["A"][0], Start("A")));
  }

  lemma TakesIt(script: Script, st: PathState)
    requires script == COMPARE_THEN_SET || script == CHECK_THEN_SET
    requires st == Plain(script["A"][1], Plain(script["A"][0], Start("A")))
    ensures Decide(Tested(script["A"][2], st), st) == Take && Noted(script["A"][2], st) == st
    ensures |st.does| == 1
  {
    hide Consistent;
    if script == COMPARE_THEN_SET {
      assert st.compare == AVar("X", Num(1)) && st.env["X"] == Num(1);
    } else {
      assert st.compare == AKey(Flag("F")) && st.flags[Flag("F")];
    }
  }

  lemma FourSteps(script: Script, c: Config, sigma: Symbols) returns (c3: Config)
    requires InScript(script, c) && !c.halted
    ensures var c1 := EventMeaning.Step(script, c, sigma);
      && InScript(script, c1)
      && (!c1.halted ==>
            var c2 := EventMeaning.Step(script, c1, sigma);
            && InScript(script, c2)
            && (!c2.halted ==>
                  && c3 == EventMeaning.Step(script, c2, sigma) && InScript(script, c3)
                  && EventMeaning.Run(script, c, sigma, 4) == EventMeaning.Run(script, c3, sigma, 1)))
  {
    hide EventMeaning.Step;
    StepStaysInScript(script, c, sigma);
    var c1 := EventMeaning.Step(script, c, sigma);
    c3 := c1;
    if !c1.halted {
      StepStaysInScript(script, c1, sigma);
      var c2 := EventMeaning.Step(script, c1, sigma);
      if !c2.halted {
        StepStaysInScript(script, c2, sigma);
        c3 := EventMeaning.Step(script, c2, sigma);
        assert EventMeaning.Run(script, c1, sigma, 3) == EventMeaning.Run(script, c2, sigma, 2);
      }
    }
  }

  lemma CompareRun(sigma: Symbols)
    ensures var final := EventMeaning.Run(COMPARE_THEN_SET, Boot("A", ZERO), sigma, 4);
            final.halted && |final.effects| == 1
  {
    var c3 := FourSteps(COMPARE_THEN_SET, Boot("A", ZERO), sigma);
    assert c3.at == "A" && c3.i == 3 && !c3.halted && |c3.effects| == 1;
  }

  lemma CheckRun(sigma: Symbols)
    ensures var final := EventMeaning.Run(CHECK_THEN_SET, Boot("A", ZERO), sigma, 4);
            final.halted && |final.effects| == 1
  {
    var c3 := FourSteps(CHECK_THEN_SET, Boot("A", ZERO), sigma);
    assert c3.at == "A" && c3.i == 3 && !c3.halted && |c3.effects| == 1;
  }

  /** A var or a flag written between the comparison and the branch: the
      compiler reads the new value, the game has compared the old one. */
  lemma WrittenSinceComparedBreaksMeaning(script: Script, sigma: Symbols)
    requires script == COMPARE_THEN_SET || script == CHECK_THEN_SET
    ensures Ranked(script, FLAT)
    ensures NoPathTells(script, FLAT, ZERO, sigma, 4)
  {
    hide Paths, EventMeaning.Run, Ranked;
    TakenPaths(script);
    if script == COMPARE_THEN_SET { CompareRun(sigma); } else { CheckRun(sigma); }
  }

  // ---- A branch is read as another condition ----

  /** A written var is compared with another kind of value. */
  const SET_SYMBOL_THEN_TEST: Script := map[
    "A" := [SetVar("X", Sym("K")), IfVar("X", Eq, Num(1), "L", false), End],
    "L" := [Say("hi"), End]]

  /** A written symbol is compared for order. */
  const SET_SYMBOL_THEN_ORDER: Script := map[
    "A" := [SetVar("X", Sym("K")), IfVar("X", Lt, Sym("L"), "L", false), End],
    "L" := [Say("hi"), End]]

  /** A checked flag is read with a code other than EQ, NE and LT. */
  const CHECK_THEN_GE: Script := map[
    "A" := [CheckKey(Flag("F")), IfCode(Some(Ge), "L", false), End],
    "L" := [Say("hi"), End]]

  predicate IsMisread(script: Script) {
    script == SET_SYMBOL_THEN_TEST || script == SET_SYMBOL_THEN_ORDER || script == CHECK_THEN_GE
  }

  /** The condition the compiler puts on the scripts' branch. */
  function Misread(script: Script): Cond {
    if script == SET_SYMBOL_THEN_TEST then VarIs("X", Eq, Num(1))
    else if script == SET_SYMBOL_THEN_ORDER then VarIs("X", Lt, Sym("L"))
    else KeyIs(Flag("F"), false)
  }

  /** A state in which that condition and the branch differ. */
  function Telling(script: Script, sigma: Symbols): Store {
    if script == SET_SYMBOL_THEN_TEST then Store({}, map["X" := if Kept(sigma("K")) == 1 then 0 else 1])
    else if script == SET_SYMBOL_THEN_ORDER then
      Store({}, map["X" := if Kept(sigma("K")) < sigma("L") then sigma("L") else sigma("L") - 1])
    else Store({Flag("F")}, map[])
  }

  lemma MisreadPaths(script: Script)
    requires IsMisread(script)
    ensures Ranked(script, FLAT)
    ensures var ps, c := Paths(script, FLAT, "A", 0, Start("A")), Misread(script);
      && |ps| == 2
      && ps[0].when_ == [c] && Said("hi") in ps[0].does
      && ps[1].when_ == [Negate(c)] && Said("hi") !in ps[1].does
  {
    hide Paths, Decide, Tested, Noted, Ranked, SaysAtL, Plain;
    if script == SET_SYMBOL_THEN_TEST {
      SymbolShape();
    } else if script == SET_SYMBOL_THEN_ORDER {
      OrderShape();
    } else {
      FlagShape();
    }
    var st, c := Plain(script["A"][0], Start("A")), Misread(script);
    ForksOn(script, st);
    ForkedInTwo(script, st, c);
    SaidIsOneMore(Assume(st, c));
    SaidIsOneMore(Assume(st, Negate(c)));
  }

  lemma ForkedInTwo(script: Script, st: PathState, c: Cond)
    requires SaysAtL(script, 1) && IsPlain(script["A"][0]) && st == Plain(script["A"][0], Start("A"))
    requires Decide(Tested(script["A"][1], st), st) == Fork(c) && Noted(script["A"][1], st) == st
    ensures Paths(script, FLAT, "A", 0, Start("A"))
         == [Finish(SaidAtL(Assume(st, c)))] + [Finish(Assume(st, Negate(c)))]
  {
    hide Paths, Enter, Decide, Tested, Noted, Ranked, Plain, SaidAtL, Finish;
    PlainKeeps(script["A"][0], Start("A"));
    PlainAt(script, 0, Start("A"));
    JumpSays(script, 1, Assume(st, c));
    JumpSays(script, 1, Assume(st, Negate(c)));
    BranchAt(script, 1, st);
  }

  lemma ForksOn(script: Script, st: PathState)
    requires IsMisread(script)
    requires st == Plain(script["A"][0], Start("A"))
    ensures Decide(Tested(script["A"][1], st), st) == Fork(Misread(script)) && Noted(script["A"][1], st) == st
    ensures st.when_ == [] && Said("hi") !in st.does
  {
    if script == SET_SYMBOL_THEN_TEST {
      SymbolForks(st);
    } else if script == SET_SYMBOL_THEN_ORDER {
      OrderForks(st);
    } else {
      FlagForks(st);
    }
  }

  lemma OrderForks(st: PathState)
    requires st.when_ == [] && "X" in st.env && st.env["X"] == Sym("K")
    ensures Decide(Some(VarIs("X", Lt, Sym("L"))), st) == Fork(VarIs("X", Lt, Sym("L")))
  {
    var c := VarIs("X", Lt, Sym("L"));
    assert Meets(0, [] + [c], "X") && Meets(0, [] + [Negate(c)], "X");
    assert Satisfiable([] + [c], "X") && Satisfiable([] + [Negate(c)], "X");
  }

  lemma SymbolForks(st: PathState)
    requires st.when_ == [] && "X" in st.env && st.env["X"] == Sym("K")
    ensures Decide(Some(VarIs("X", Eq, Num(1))), st) == Fork(VarIs("X", Eq, Num(1)))
  {
    var c := VarIs("X", Eq, Num(1));
    assert Meets(1, [c], "X") && Meets(0, [Negate(c)], "X");
    assert [] + [c] == [c] && [] + [Negate(c)] == [Negate(c)];
    assert Satisfiable([] + [c], "X") && Satisfiable([] + [Negate(c)], "X");
  }

  lemma FlagForks(st: PathState)
    requires st.when_ == [] && Flag("F") !in st.flags
    ensures Decide(Some(KeyIs(Flag("F"), false)), st) == Fork(KeyIs(Flag("F"), false))
  {}

  lemma SymbolRun(sigma: Symbols)
    ensures var s0 := Telling(SET_SYMBOL_THEN_TEST, sigma);
      var final := EventMeaning.Run(SET_SYMBOL_THEN_TEST, Boot("A", s0), sigma, 4);
      final.halted && (Said("hi") in final.effects <==> !Holds(Misread(SET_SYMBOL_THEN_TEST), s0, sigma))
  {
    var script := SET_SYMBOL_THEN_TEST;
    var c0 := Boot("A", Telling(script, sigma));
    var c1 := EventMeaning.Step(script, c0, sigma);
    var c2 := EventMeaning.Step(script, c1, sigma);
    assert if Kept(sigma("K")) == 1 then c2.at == "L" && c2.i == 0 else c2.at == "A" && c2.i == 2;
    var c3 := FourSteps(script, c0, sigma);
    assert Kept(sigma("K")) == 1 ==> c3.effects == [VarSet("X", Sym("K")), Said("hi")] && c3.at == "L" && c3.i == 1;
    assert Kept(sigma("K")) != 1 ==> c3.halted && c3.effects == [VarSet("X", Sym("K"))];
  }

  lemma OrderRun(sigma: Symbols)
    ensures var s0 := Telling(SET_SYMBOL_THEN_ORDER, sigma);
      var final := EventMeaning.Run(SET_SYMBOL_THEN_ORDER, Boot("A", s0), sigma, 4);
      final.halted && (Said("hi") in final.effects <==> !Holds(Misread(SET_SYMBOL_THEN_ORDER), s0, sigma))
  {
    var script := SET_SYMBOL_THEN_ORDER;
    var c0 := Boot("A", Telling(script, sigma));
    var c1 := EventMeaning.Step(script, c0, sigma);
    var c2 := EventMeaning.Step(script, c1, sigma);
    var less := Kept(sigma("K")) < sigma("L");
    assert if less then c2.at == "L" && c2.i == 0 else c2.at == "A" && c2.i == 2;
    var c3 := FourSteps(script, c0, sigma);
    assert less ==> c3.effects == [VarSet("X", Sym("K")), Said("hi")] && c3.at == "L" && c3.i == 1;
    assert !less ==> c3.halted && c3.effects == [VarSet("X", Sym("K"))];
  }

  lemma FlagRun(sigma: Symbols)
    ensures var s0 := Telling(CHECK_THEN_GE, sigma);
      var final := EventMeaning.Run(CHECK_THEN_GE, Boot("A", s0), sigma, 4);
      final.halted && Said("hi") in final.effects && !Holds(Misread(CHECK_THEN_GE), s0, sigma)
  {
    hide EventMeaning.Run;
    FlagIsSet(sigma);
    SetFlagRun(Telling(CHECK_THEN_GE, sigma), sigma);
  }

  lemma FlagIsSet(sigma: Symbols)
    ensures Flag("F") in Telling(CHECK_THEN_GE, sigma).keys && Misread(CHECK_THEN_GE) == KeyIs(Flag("F"), false)
  {
    assert CHECK_THEN_GE["A"][0] != SET_SYMBOL_THEN_TEST["A"][0];
    assert CHECK_THEN_GE["A"][0] != SET_SYMBOL_THEN_ORDER["A"][0];
  }

  lemma SetFlagRun(s0: Store, sigma: Symbols)
    requires Flag("F") in s0.keys
    ensures var final := EventMeaning.Run(CHECK_THEN_GE, Boot("A", s0), sigma, 4);
      final.halted && Said("hi") in final.effects
  {
    var script, c0 := CHECK_THEN_GE, Boot("A", s0);
    var c1 := EventMeaning.Step(script, c0, sigma);
    var c2 := EventMeaning.Step(script, c1, sigma);
    assert c2.at == "L" && c2.i == 0;
    var c3 := FourSteps(script, c0, sigma);
    assert c3.effects == [Said("hi")] && c3.at == "L" && c3.i == 1;
  }

  /** The path that says the line wants the condition misread; the run that says
      it is one where that does not hold. */
  lemma MisreadBranchBreaksMeaning(script: Script, sigma: Symbols)
    requires IsMisread(script)
    ensures Ranked(script, FLAT)
    ensures NoPathTells(script, FLAT, Telling(script, sigma), sigma, 4)
  {
    hide Paths, EventMeaning.Run, Ranked, Misread, Telling;
    MisreadPaths(script);
    if script == SET_SYMBOL_THEN_TEST {
      SymbolRun(sigma);
    } else if script == SET_SYMBOL_THEN_ORDER {
      OrderRun(sigma);
    } else {
      FlagRun(sigma);
    }
    NegationIsExact(Misread(script), Telling(script, sigma), sigma);
    var ps := Paths(script, FLAT, "A", 0, Start("A"));
    assert ps[0].when_[0] == Misread(script) && ps[1].when_[0] == Negate(Misread(script));
  }

  // ---- A branch is decided from a value the var does not have ----

  /** A var set to one symbol is tested for another. */
  const SET_SYMBOL_THEN_TEST_ANOTHER: Script := map[
    "A" := [SetVar("X", Sym("K")), IfVar("X", Eq, Sym("L"), "L", false), End],
    "L" := [Say("hi"), End]]

  /** A var is counted past what it can keep. */
  const COUNT_PAST_THE_LIMIT: Script := map[
    "A" := [SetVar("X", Num(0xFFFF)), AddVar("X", Num(1)), IfVar("X", Eq, Num(0), "L", false), End],
    "L" := [Say("hi"), End]]

  /** What both compile to: the branch is skipped. */
  lemma SkippedPaths(script: Script)
    requires script == SET_SYMBOL_THEN_TEST_ANOTHER || script == COUNT_PAST_THE_LIMIT
    ensures Ranked(script, FLAT)
    ensures |Paths(script, FLAT, "A", 0, Start("A"))| == 1
    ensures Said("hi") !in Paths(script, FLAT, "A", 0, Start("A"))[0].does
  {
    hide Paths, Decide, Tested, Noted, Ranked, SaysAtL, Plain;
    if script == SET_SYMBOL_THEN_TEST_ANOTHER { AnotherShape(); } else { CountShape(); }
    var at, st := SkipsIt(script);
    SkippedOnly(script, at, st);
    SaidIsOneMore(st);
  }

  lemma AnotherShape()
    ensures Ranked(SET_SYMBOL_THEN_TEST_ANOTHER, FLAT) && SaysAtL(SET_SYMBOL_THEN_TEST_ANOTHER, 1)
    ensures IsPlain(SET_SYMBOL_THEN_TEST_ANOTHER["A"][0])
  {
    hide Ranked;
    FlatIsRanked(SET_SYMBOL_THEN_TEST_ANOTHER);
  }

  lemma CountShape()
    ensures Ranked(COUNT_PAST_THE_LIMIT, FLAT) && SaysAtL(COUNT_PAST_THE_LIMIT, 2)
    ensures IsPlain(COUNT_PAST_THE_LIMIT["A"][0]) && IsPlain(COUNT_PAST_THE_LIMIT["A"][1])
  {
    hide Ranked;
    FlatIsRanked(COUNT_PAST_THE_LIMIT);
  }

  /** The state after the one or two commands before the branch. */
  predicate Before(script: Script, at: nat, st: PathState)
    requires "A" in script && at < |script["A"]| && forall i :: 0 <= i < at ==> IsPlain(script["A"][i])
  {
    || (at == 1 && st == Plain(script["A"][0], Start("A")))
    || (at == 2 && st == Plain(script["A"][1], Plain(script["A"][0], Start("A"))))
  }

  lemma SkipsIt(script: Script) returns (at: nat, st: PathState)
    requires script == SET_SYMBOL_THEN_TEST_ANOTHER || script == COUNT_PAST_THE_LIMIT
    ensures "A" in script && at < |script["A"]| && IsBranch(script["A"][at])
    ensures SaysAtL(script, at) && (forall i :: 0 <= i < at ==> IsPlain(script["A"][i])) && Before(script, at, st)
    ensures Decide(Tested(script["A"][at], st), st) == Skip && Noted(script["A"][at], st) == st
    ensures Said("hi") !in st.does
  {
    hide Decide, Tested, Noted, Ranked, Plain, SaysAtL;
    if script == SET_SYMBOL_THEN_TEST_ANOTHER {
      AnotherShape();
      at, st := 1, Plain(script["A"][0], Start("A"));
      AnotherIsSkipped(st);
    } else {
      CountShape();
      at, st := 2, Plain(script["A"][1], Plain(script["A"][0], Start("A")));
      CountIsSkipped(st);
    }
  }

  lemma AnotherIsSkipped(st: PathState)
    requires st == Plain(SetVar("X", Sym("K")), Start("A"))
    ensures var cmd := IfVar("X", Eq, Sym("L"), "L", false);
      Decide(Tested(cmd, st), st) == Skip && Noted(cmd, st) == st
    ensures Said("hi") !in st.does
  {
    hide Consistent;
    assert st.env["X"] == Sym("K");
  }

  lemma CountIsSkipped(st: PathState)
    requires st == Plain(AddVar("X", Num(1)), Plain(SetVar("X", Num(0xFFFF)), Start("A")))
    ensures var cmd := IfVar("X", Eq, Num(0), "L", false);
      Decide(Tested(cmd, st), st) == Skip && Noted(cmd, st) == st
    ensures Said("hi") !in st.does
  {
    hide Consistent;
    assert st.env["X"] == Num(0x1_0000);
  }

  lemma SkippedOnly(script: Script, at: nat, st: PathState)
    requires SaysAtL(script, at) && (forall i :: 0 <= i < at ==> IsPlain(script["A"][i])) && Before(script, at, st)
    requires Decide(Tested(script["A"][at], st), st) == Skip && Noted(script["A"][at], st) == st
    ensures Paths(script, FLAT, "A", 0, Start("A")) == [Finish(st)]
  {
    hide Paths, Enter, Decide, Tested, Noted, Ranked, Plain, Finish;
    PlainKeeps(script["A"][0], Start("A"));
    PlainAt(script, 0, Start("A"));
    if at == 2 {
      PlainKeeps(script["A"][1], Plain(script["A"][0], Start("A")));
      PlainAt(script, 1, Plain(script["A"][0], Start("A")));
    }
    JumpSays(script, at, st);
    BranchAt(script, at, st);
  }

  lemma AnotherRun(sigma: Symbols)
    requires 0 <= sigma("K") == sigma("L") < VAR_VALUES
    ensures var final := EventMeaning.Run(SET_SYMBOL_THEN_TEST_ANOTHER, Boot("A", ZERO), sigma, 4);
      final.halted && Said("hi") in final.effects
  {
    var script := SET_SYMBOL_THEN_TEST_ANOTHER;
    var c1 := EventMeaning.Step(script, Boot("A", ZERO), sigma);
    var c2 := EventMeaning.Step(script, c1, sigma);
    assert c2.at == "L" && c2.i == 0;
    var c3 := FourSteps(script, Boot("A", ZERO), sigma);
    assert c3.effects == [VarSet("X", Sym("K")), Said("hi")] && c3.at == "L" && c3.i == 1;
  }

  /** The compiler tells the symbols apart by name; the game has one number. */
  lemma SharedNumberBreaksMeaning(sigma: Symbols)
    requires 0 <= sigma("K") == sigma("L") < VAR_VALUES
    ensures Ranked(SET_SYMBOL_THEN_TEST_ANOTHER, FLAT)
    ensures NoPathTells(SET_SYMBOL_THEN_TEST_ANOTHER, FLAT, ZERO, sigma, 4)
  {
    hide Paths, EventMeaning.Run, Ranked;
    SkippedPaths(SET_SYMBOL_THEN_TEST_ANOTHER);
    AnotherRun(sigma);
  }

  lemma CountRun(sigma: Symbols)
    ensures var final := EventMeaning.Run(COUNT_PAST_THE_LIMIT, Boot("A", ZERO), sigma, 5);
      final.halted && Said("hi") in final.effects
  {
    hide EventMeaning.Run;
    var script := COUNT_PAST_THE_LIMIT;
    var c1 := EventMeaning.Step(script, Boot("A", ZERO), sigma);
    OneStep(script, Boot("A", ZERO), sigma);
    RunInTwo(script, Boot("A", ZERO), sigma, 1, 4);
    CountOn(c1, sigma);
  }

  lemma CountOn(c: Config, sigma: Symbols)
    requires c.at == "A" && c.i == 1 && !c.halted && c.stack == [] && Get(c.store, "X") == 0xFFFF
    ensures InScript(COUNT_PAST_THE_LIMIT, c)
    ensures var final := EventMeaning.Run(COUNT_PAST_THE_LIMIT, c, sigma, 4);
      final.halted && Said("hi") in final.effects
  {
    hide EventMeaning.Run;
    var script := COUNT_PAST_THE_LIMIT;
    var c1 := EventMeaning.Step(script, c, sigma);
    assert Get(c1.store, "X") == 0 && c1.i == 2;
    var c2 := EventMeaning.Step(script, c1, sigma);
    assert c2.at == "L" && c2.i == 0 && !c2.halted;
    var c3 := FourSteps(script, c, sigma);
    assert c3.effects[|c3.effects| - 1] == Said("hi") && c3.at == "L" && c3.i == 1;
    OneStep(script, c3, sigma);
  }

  /** The compiler counts on; the game's var starts again at zero. */
  lemma CountingPastTheLimitBreaksMeaning(sigma: Symbols)
    ensures Ranked(COUNT_PAST_THE_LIMIT, FLAT)
    ensures NoPathTells(COUNT_PAST_THE_LIMIT, FLAT, ZERO, sigma, 5)
  {
    hide Paths, EventMeaning.Run, Ranked;
    SkippedPaths(COUNT_PAST_THE_LIMIT);
    CountRun(sigma);
  }
}
