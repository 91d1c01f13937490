/** What the scripts do, one command at a time, and that the compiled paths mean
    the same: every run that keeps to the compiler's assumptions is described by
    one emitted path, and the emitted paths exclude each other. */
module EventMeaning {
  import opened Seqs
  import opened EventConditions
  import opened EventCompiler
  import opened Wrappers

  // ---- The machine ----

  /** What the last comparison found: the first value less than, equal to or
      greater than the second. */
  datatype Register = Unset | Ordered(a: int, b: int)

  /** Checking a flag compares it, 1 when set and 0 when not, with 1. */
  function Checked(on: bool): Register { Ordered(if on then 1 else 0, 1) }

  datatype Config = Config(
    at: Label,
    i: nat,
    store: Store,
    stack: seq<Frame>,
    reg: Register,
    effects: seq<Effect>,
    halted: bool)

  predicate RegisterSays(reg: Register, op: Op) {
    match reg
    case Unset => false
    case Ordered(a, b) => Compare(op, a, b)
  }

  /** The compiler reads a jump on a checked flag as set for the code EQ and as
      not set for every other code. */
  predicate FlagCode(op: Op) { op == Eq || op == Ne || op == Lt }

  /** It reads it rightly exactly for EQ, NE and LT: GT never jumps, LE always
      does, and GE jumps when the flag is set. */
  lemma FlagCodesAreThose(op: Op)
    ensures (forall on: bool :: RegisterSays(Checked(on), op) == (on == (op == Eq))) <==> FlagCode(op)
  {
    var set_, unset := Checked(true), Checked(false);
    assert FlagCode(op) <==> RegisterSays(set_, op) == (op == Eq) && RegisterSays(unset, op) == (op != Eq);
  }

  predicate Jumps(cmd: Cmd, c: Config, sigma: Symbols)
    requires IsBranch(cmd)
  {
    match cmd
    case IfKey(key, is_, _, _) => Holds(KeyIs(key, is_), c.store, sigma)
    case IfVar(v, op, value, _, _) => Holds(VarIs(v, op, value), c.store, sigma)
    case IfCompared(op, _, _) => RegisterSays(c.reg, op)
    case IfCode(code, _, _) => code.Some? && RegisterSays(c.reg, code.value)
  }

  /** A var keeps 16 bits of what is written to it. */
  const VAR_VALUES := 0x1_0000

  function Kept(n: int): int { n % VAR_VALUES }

  function Stored(s: Store, v: Name, n: int): Store { s.(vars := s.vars[v := Kept(n)]) }

  function PlainStep(cmd: Cmd, c: Config, sigma: Symbols): Config
    requires IsPlain(cmd)
  {
    var d := c.(i := c.i + 1);
    match cmd
    case Ignored => d
    case CompareVar(v, value) => d.(reg := Ordered(Get(c.store, v), Meaning(value, sigma)))
    case CheckKey(key) => d.(reg := Checked(key in c.store.keys))
    case SetKey(key) => d.(store := c.store.(keys := c.store.keys + {key}), effects := c.effects + [KeySet(key)])
    case ClearKey(key) => d.(store := c.store.(keys := c.store.keys - {key}), effects := c.effects + [KeyCleared(key)])
    case SetVar(v, value) =>
      d.(store := Stored(c.store, v, Meaning(value, sigma)),
         effects := c.effects + [VarSet(v, value)])
    case AddVar(v, value) =>
      d.(store := Stored(c.store, v, Get(c.store, v) + Meaning(value, sigma)),
         effects := c.effects + [VarAdded(v, value)])
    case SubVar(v, value) =>
      d.(store := Stored(c.store, v, Get(c.store, v) - Meaning(value, sigma)),
         effects := c.effects + [VarSubbed(v, value)])
    case Say(text) => d.(effects := c.effects + [Said(text)])
  }

  /** Following a goto or a call; a target no script defines ends the run. */
  function FollowStep(script: Script, cmd: Cmd, c: Config): Config
    requires cmd.Goto? || cmd.Call? || IsBranch(cmd)
  {
    var target := Target(cmd);
    if target !in script then c.(halted := true)
    else if IsCall(cmd) then c.(at := target, i := 0, stack := c.stack + [Frame(c.at, c.i + 1)])
    else c.(at := target, i := 0)
  }

  function Step(script: Script, c: Config, sigma: Symbols): Config
    requires c.at in script
  {
    if c.i >= |script[c.at]| then c.(halted := true)
    else
      var cmd := script[c.at][c.i];
      if IsPlain(cmd) then PlainStep(cmd, c, sigma)
      else if cmd.End? then c.(halted := true)
      else if cmd.Return? then
        if c.stack == [] then c.(halted := true)
        else
          var top := c.stack[|c.stack| - 1];
          c.(at := top.at, i := top.i, stack := c.stack[..|c.stack| - 1])
      else if cmd.Goto? || cmd.Call? then FollowStep(script, cmd, c)
      else if Jumps(cmd, c, sigma) then FollowStep(script, cmd, c)
      else c.(i := c.i + 1)
  }

  predicate InScript(script: Script, c: Config) {
    c.at in script && StackIn(script, c.stack)
  }

  lemma StepStaysInScript(script: Script, c: Config, sigma: Symbols)
    requires InScript(script, c)
    ensures InScript(script, Step(script, c, sigma))
  {}

  function Run(script: Script, c: Config, sigma: Symbols, n: nat): Config
    requires InScript(script, c)
    decreases n
  {
    if n == 0 || c.halted then c
    else
      StepStaysInScript(script, c, sigma);
      Run(script, Step(script, c, sigma), sigma, n - 1)
  }

  function Boot(entry: Label, s: Store): Config {
    Config(entry, 0, s, [], Unset, [], false)
  }

  // ---- The compiler's assumptions about a run ----

  /** What a run has done so far: labels entered by goto, vars whose written
      value is known and what it would be without a limit, vars whose value is
      not, and what was compared last and whether it was written since. */
  datatype History = History(
    entered: set<Label>,
    known: map<Name, Value>,
    lost: set<Name>,
    watch: Compared,
    current: bool)

  /** A written value the compiler compares as the game does: one the var could
      keep, of the same kind as what it is compared with, and symbols only for
      equality and only where no other name has the same number. */
  predicate Comparable(have: Value, op: Op, want: Value, sigma: Symbols) {
    && 0 <= Meaning(have, sigma) < VAR_VALUES
    && have.Num? == want.Num?
    && (want.Sym? ==>
          (op == Eq || op == Ne) && (Meaning(have, sigma) == Meaning(want, sigma) ==> have == want))
  }

  /** A comparison the compiler can read: the var's value is not lost, and a
      written one is comparable. */
  predicate Testable(h: History, v: Name, op: Op, value: Value, sigma: Symbols) {
    && v !in h.lost
    && (v in h.known ==> Comparable(h.known[v], op, value, sigma))
  }

  predicate Readable(cmd: Cmd, h: History, sigma: Symbols)
    requires IsBranch(cmd)
  {
    match cmd
    case IfKey(_, _, _, _) => true
    case IfVar(v, op, value, _, _) => Testable(h, v, op, value, sigma)
    case IfCompared(op, _, _) => h.watch.AVar? ==> h.current && Testable(h, h.watch.v, op, h.watch.value, sigma)
    case IfCode(code, _, _) =>
      code.Some? && !h.watch.Nothing? ==>
        h.current
        && (if h.watch.AVar? then Testable(h, h.watch.v, code.value, h.watch.value, sigma)
            else FlagCode(code.value))
  }

  /** For symbols that is exact: the compiler tells a known symbol from another
      by name, and is right exactly where their numbers tell them apart. */
  lemma SymbolsComparableExactly(have: Value, op: Op, want: Value, v: Name, sigma: Symbols)
    requires have.Sym? && want.Sym? && (op == Eq || op == Ne) && 0 <= Meaning(have, sigma) < VAR_VALUES
    ensures Comparable(have, op, want, sigma)
       <==> StaticEval(VarIs(v, op, want), map[v := have], map[])
            == Some(Compare(op, Kept(Meaning(have, sigma)), Meaning(want, sigma)))
  {}

  /** Whether the command at hand follows its target by goto. */
  predicate GoesTo(script: Script, cmd: Cmd, c: Config, sigma: Symbols) {
    && (cmd.Goto? || (IsBranch(cmd) && Jumps(cmd, c, sigma)))
    && !IsCall(cmd)
    && Target(cmd) in script
  }

  predicate Admissible(script: Script, c: Config, h: History, sigma: Symbols)
    requires c.at in script
  {
    c.i < |script[c.at]| ==>
      var cmd := script[c.at][c.i];
      && (IsBranch(cmd) ==> Readable(cmd, h, sigma))
      && (GoesTo(script, cmd, c, sigma) ==> Target(cmd) !in h.entered)
  }

  function Written(h: History, v: Name): History {
    h.(current := h.current && !(h.watch.AVar? && h.watch.v == v))
  }

  function Recounted(h: History, v: Name, delta: Value, sign: int): History {
    if v in h.known && h.known[v].Num? && delta.Num?
    then Written(h, v).(known := h.known[v := Num(h.known[v].n + sign * delta.n)])
    else Written(h, v).(known := h.known - {v}, lost := h.lost + {v})
  }

  function PlainHistory(cmd: Cmd, h: History): History
    requires IsPlain(cmd)
  {
    match cmd
    case CompareVar(v, value) => h.(watch := AVar(v, value), current := true)
    case CheckKey(key) => h.(watch := AKey(key), current := true)
    case SetKey(key) => h.(current := h.current && h.watch != AKey(key))
    case ClearKey(key) => h.(current := h.current && h.watch != AKey(key))
    case SetVar(v, value) => Written(h, v).(known := h.known[v := value], lost := h.lost - {v})
    case AddVar(v, delta) => Recounted(h, v, delta, 1)
    case SubVar(v, delta) => Recounted(h, v, delta, -1)
    case _ => h
  }

  function NextHistory(script: Script, c: Config, h: History, sigma: Symbols): History
    requires c.at in script
  {
    if c.i >= |script[c.at]| then h
    else
      var cmd := script[c.at][c.i];
      if IsPlain(cmd) then PlainHistory(cmd, h)
      else if GoesTo(script, cmd, c, sigma) then h.(entered := h.entered + {Target(cmd)})
      else h
  }

  /** The next `n` steps enter no label twice by goto and test nothing the
      compiler has lost sight of. */
  predicate Regular(script: Script, c: Config, h: History, sigma: Symbols, n: nat)
    requires InScript(script, c)
    decreases n
  {
    n == 0 || c.halted ||
    (Admissible(script, c, h, sigma) &&
     (StepStaysInScript(script, c, sigma);
      Regular(script, Step(script, c, sigma), NextHistory(script, c, h, sigma), sigma, n - 1)))
  }

  // ---- What a run leaves untold ----

  /** The command a run is at; none past the end of a label. */
  function CommandAt(script: Script, c: Config): Option<Cmd>
    requires c.at in script
  {
    if c.i < |script[c.at]| then Some(script[c.at][c.i]) else None
  }

  /** A branch on the last comparison, when that was none the compiler could
      read: it goes by its name. */
  function Unread(cmd: Cmd, h: History): set<Name> {
    match cmd
    case IfCompared(op, _, call) =>
      if h.watch.AVar? then {}
      else
        var test := match op case Lt => "lt" case Eq => "eq" case Gt => "gt" case Le => "le" case Ge => "ge"
                             case Ne => "ne";
        {if call then "call_if_" + test else "goto_if_" + test}
    case IfCode(code, _, call) =>
      if code.Some? && !h.watch.Nothing? then {} else {if call then "call_if" else "goto_if"}
    case _ => {}
  }

  /** A target no script defines, by how it was to be reached. */
  function Undefined(script: Script, cmd: Cmd): set<Name> {
    match cmd
    case Goto(target) => Nowhere(script, target, false)
    case Call(target) => Nowhere(script, target, true)
    case IfKey(_, _, target, call) => Nowhere(script, target, call)
    case IfVar(_, _, _, target, call) => Nowhere(script, target, call)
    case IfCompared(_, target, call) => Nowhere(script, target, call)
    case IfCode(_, target, call) => Nowhere(script, target, call)
    case _ => {}
  }

  function Nowhere(script: Script, target: Label, call: bool): set<Name> {
    if target in script then {} else {if call then "call " + target else "goto " + target}
  }

  /** A branch whose test fails goes nowhere. */
  predicate GoesOn(script: Script, c: Config, sigma: Symbols)
    requires c.at in script
  {
    c.i < |script[c.at]| && IsBranch(script[c.at][c.i]) ==> Jumps(script[c.at][c.i], c, sigma)
  }

  /** Everything the next `n` steps do that a path can only name: a test on
      something unread, a target no script defines. */
  function Untold(script: Script, c: Config, h: History, sigma: Symbols, n: nat): set<Name>
    requires InScript(script, c)
    decreases n
  {
    if n == 0 || c.halted then {}
    else
      StepStaysInScript(script, c, sigma);
      UntoldHere(script, c, h, sigma)
        + Untold(script, Step(script, c, sigma), NextHistory(script, c, h, sigma), sigma, n - 1)
  }

  function UntoldHere(script: Script, c: Config, h: History, sigma: Symbols): set<Name>
    requires c.at in script
  {
    match CommandAt(script, c)
    case None => {}
    case Some(cmd) => Unread(cmd, h) + if GoesOn(script, c, sigma) then Undefined(script, cmd) else {}
  }

  /** The run is over at a goto or a call of a label no script defines. */
  predicate StopsAtMissing(script: Script, c: Config, note: Name)
    requires c.at in script
  {
    && c.halted
    && match CommandAt(script, c)
       case None => false
       case Some(cmd) =>
         (cmd.Goto? || cmd.Call? || IsBranch(cmd)) && Target(cmd) !in script
           && note == (if IsCall(cmd) then "call " else "goto ") + Target(cmd)
  }

  /** The run is over at an end, a return with no caller, or the end of a label. */
  predicate StopsProperly(script: Script, c: Config)
    requires c.at in script
  {
    && c.halted
    && match CommandAt(script, c)
       case None => true
       case Some(cmd) => cmd.End? || (cmd.Return? && c.stack == [])
  }

  /** A run that is over stops in one of these ways, and a missing label is
      among what it leaves untold. */
  lemma {:induction false} StopsAreThose(script: Script, c: Config, h: History, sigma: Symbols, n: nat)
    requires InScript(script, c) && !c.halted && Run(script, c, sigma, n).halted
    ensures var final := Run(script, c, sigma, n);
      && InScript(script, final)
      && (StopsProperly(script, final) || exists note :: StopsAtMissing(script, final, note))
      && forall note :: StopsAtMissing(script, final, note) ==> note in Untold(script, c, h, sigma, n)
    decreases n
  {
    hide PlainStep, PlainHistory, Jumps, NextHistory, Unread;
    StepStaysInScript(script, c, sigma);
    var d := Step(script, c, sigma);
    if d.halted {
      Halts(script, d, sigma, n - 1);
      StopsHere(script, c, h, sigma);
    } else {
      StopsAreThose(script, d, NextHistory(script, c, h, sigma), sigma, n - 1);
    }
  }

  lemma StopsHere(script: Script, c: Config, h: History, sigma: Symbols)
    requires InScript(script, c) && !c.halted && Step(script, c, sigma).halted
    ensures var final := Step(script, c, sigma);
      && (StopsProperly(script, final) || exists note :: StopsAtMissing(script, final, note))
      && forall note :: StopsAtMissing(script, final, note) ==> note in UntoldHere(script, c, h, sigma)
  {
    hide Unread, Jumps;
    if c.i < |script[c.at]| {
      var cmd, final := script[c.at][c.i], Step(script, c, sigma);
      if IsPlain(cmd) {
        PlainNeverHalts(cmd, c, sigma);
        assert false;
      } else if !cmd.End? && !cmd.Return? {
        MissedIsNamed(script, cmd);
        assert StopsAtMissing(script, final, (if IsCall(cmd) then "call " else "goto ") + Target(cmd));
      }
    }
  }

  lemma MissedIsNamed(script: Script, cmd: Cmd)
    requires cmd.Goto? || cmd.Call? || IsBranch(cmd)
    ensures Undefined(script, cmd) ==
      if Target(cmd) in script then {} else {(if IsCall(cmd) then "call " else "goto ") + Target(cmd)}
  {}

  lemma PlainNeverHalts(cmd: Cmd, c: Config, sigma: Symbols)
    requires IsPlain(cmd)
    ensures PlainStep(cmd, c, sigma).halted == c.halted
  {}

  function Begun(entry: Label): History {
    History({entry}, map[], {}, Nothing, false)
  }

  // ---- The path state describes the run ----

  ghost predicate FlagsMatch(st: PathState, store: Store, s0: Store) {
    && (forall key :: key in st.flags ==> (key in store.keys) == st.flags[key])
    && (forall key :: key !in st.flags ==> (key in store.keys <==> key in s0.keys))
  }

  /** A var with a known value keeps that; one never written has its first. */
  predicate VarMatches(v: Name, env: map<Name, Value>, h: History, store: Store, s0: Store, sigma: Symbols) {
    && (v in env <==> v in h.known)
    && (v in env ==> h.known[v] == env[v] && Get(store, v) == Kept(Meaning(env[v], sigma)) && v !in h.lost)
    && (v !in env && v !in h.lost ==> Get(store, v) == Get(s0, v))
  }

  ghost predicate VarsMatch(env: map<Name, Value>, h: History, store: Store, s0: Store, sigma: Symbols) {
    forall v :: VarMatches(v, env, h, store, s0, sigma)
  }

  predicate WatchMatches(st: PathState, c: Config, h: History, sigma: Symbols) {
    && st.compare == h.watch
    && (h.current ==>
          match h.watch
          case Nothing => true
          case AVar(v, value) => c.reg == Ordered(Get(c.store, v), Meaning(value, sigma))
          case AKey(key) => c.reg == Checked(key in c.store.keys))
  }

  ghost predicate Describes(st: PathState, c: Config, h: History, s0: Store, sigma: Symbols) {
    && c.stack == st.stack
    && c.effects == st.does
    && h.entered == st.trail
    && !c.halted
    && AllHold(st.when_, s0, sigma)
    && FlagsMatch(st, c.store, s0)
    && VarsMatch(st.env, h, c.store, s0, sigma)
    && WatchMatches(st, c, h, sigma)
  }

  lemma PlainFlags(cmd: Cmd, st: PathState, c: Config, s0: Store, sigma: Symbols)
    requires IsPlain(cmd) && FlagsMatch(st, c.store, s0)
    ensures FlagsMatch(Plain(cmd, st), PlainStep(cmd, c, sigma).store, s0)
  {
    hide Meaning, Get;
  }

  lemma PlainVars(cmd: Cmd, st: PathState, c: Config, h: History, s0: Store, sigma: Symbols)
    requires IsPlain(cmd) && VarsMatch(st.env, h, c.store, s0, sigma)
    ensures VarsMatch(Plain(cmd, st).env, PlainHistory(cmd, h), PlainStep(cmd, c, sigma).store, s0, sigma)
  {
    hide VarMatches, Added, Forget, Stored, Written, Recounted, Get, Meaning;
    forall w: Name
      ensures VarMatches(w, Plain(cmd, st).env, PlainHistory(cmd, h), PlainStep(cmd, c, sigma).store, s0, sigma)
    {
      assert VarMatches(w, st.env, h, c.store, s0, sigma);
      if cmd.SetVar? {
        SetOneVar(w, st.env, cmd.v, cmd.value, c.store, h, s0, sigma);
      } else if cmd.AddVar? {
        AddToVar(w, st.env, cmd.v, cmd.value, 1, c.store, h, s0, sigma);
      } else if cmd.SubVar? {
        AddToVar(w, st.env, cmd.v, cmd.value, -1, c.store, h, s0, sigma);
      } else {
        OtherCommand(w, st.env, h, PlainHistory(cmd, h), c.store, PlainStep(cmd, c, sigma).store, s0, sigma);
      }
    }
  }

  lemma OtherCommand(w: Name, env: map<Name, Value>, h: History, h': History, store: Store, store': Store, s0: Store,
      sigma: Symbols)
    requires VarMatches(w, env, h, store, s0, sigma)
    requires h'.known == h.known && h'.lost == h.lost && store'.vars == store.vars
    ensures VarMatches(w, env, h', store', s0, sigma)
  {}

  lemma SetOneVar(w: Name, env: map<Name, Value>, v: Name, value: Value, store: Store, h: History, s0: Store,
      sigma: Symbols)
    requires VarMatches(w, env, h, store, s0, sigma)
    ensures var h' := Written(h, v).(known := h.known[v := value], lost := h.lost - {v});
      VarMatches(w, Forget(env, v)[v := value], h', Stored(store, v, Meaning(value, sigma)), s0, sigma)
  {}

  lemma AddToVar(w: Name, env: map<Name, Value>, v: Name, delta: Value, sign: int, store: Store, h: History,
      s0: Store, sigma: Symbols)
    requires sign == 1 || sign == -1
    requires VarMatches(w, env, h, store, s0, sigma) && VarMatches(v, env, h, store, s0, sigma)
    ensures VarMatches(w, Added(env, v, delta, sign), Recounted(h, v, delta, sign),
                       Stored(store, v, Get(store, v) + sign * Meaning(delta, sigma)), s0, sigma)
  {}

  lemma PlainWatch(cmd: Cmd, st: PathState, c: Config, h: History, sigma: Symbols)
    requires IsPlain(cmd) && WatchMatches(st, c, h, sigma)
    ensures WatchMatches(Plain(cmd, st), PlainStep(cmd, c, sigma), PlainHistory(cmd, h), sigma)
  {
    hide Meaning;
  }

  lemma PlainDescribes(cmd: Cmd, st: PathState, c: Config, h: History, s0: Store, sigma: Symbols)
    requires IsPlain(cmd) && Describes(st, c, h, s0, sigma)
    ensures Describes(Plain(cmd, st), PlainStep(cmd, c, sigma), PlainHistory(cmd, h), s0, sigma)
  {
    hide FlagsMatch, VarsMatch, WatchMatches, AllHold, Meaning, Get, Added;
    PlainFlags(cmd, st, c, s0, sigma);
    PlainVars(cmd, st, c, h, s0, sigma);
    PlainWatch(cmd, st, c, h, sigma);
  }

  /** The condition the compiler reads off a branch is the machine's test. */
  lemma TestedIsTheTest(cmd: Cmd, st: PathState, c: Config, h: History, s0: Store, sigma: Symbols)
    requires IsBranch(cmd) && Describes(st, c, h, s0, sigma) && Readable(cmd, h, sigma)
    requires Tested(cmd, st).Some?
    ensures Jumps(cmd, c, sigma) <==> Holds(Tested(cmd, st).value, c.store, sigma)
    ensures var cond := Tested(cmd, st).value;
            cond.VarIs? ==> Testable(h, cond.v, cond.op, cond.value, sigma)
  {}

  /** What the compiler decides about a readable condition is right. */
  lemma DecidedIsRight(cond: Cond, st: PathState, c: Config, h: History, s0: Store, sigma: Symbols)
    requires Describes(st, c, h, s0, sigma)
    requires cond.VarIs? ==> Testable(h, cond.v, cond.op, cond.value, sigma)
    ensures match StaticEval(cond, st.env, st.flags)
            case Some(b) => b == Holds(cond, c.store, sigma)
            case None => Holds(cond, c.store, sigma) == Holds(cond, s0, sigma)
  {
    if cond.VarIs? {
      assert VarMatches(cond.v, st.env, h, c.store, s0, sigma);
    }
  }

  lemma DecisionIsRight(cond: Cond, st: PathState, c: Config, h: History, s0: Store, sigma: Symbols)
    requires Describes(st, c, h, s0, sigma) && InRange(s0)
    requires cond.VarIs? ==> Testable(h, cond.v, cond.op, cond.value, sigma)
    ensures match Decide(Some(cond), st)
            case Fork(k) => k == cond && (Holds(cond, c.store, sigma) <==> Holds(cond, s0, sigma))
            case Both => false
            case Take => Holds(cond, c.store, sigma)
            case Skip => !Holds(cond, c.store, sigma)
  {
    hide Consistent, Holds, StaticEval, FlagsMatch, VarsMatch, WatchMatches, InRange;
    DecidedIsRight(cond, st, c, h, s0, sigma);
    NegationIsExact(cond, s0, sigma);
    if Holds(cond, s0, sigma) {
      TrueIsConsistent(st.when_, cond, s0, sigma);
    } else {
      TrueIsConsistent(st.when_, Negate(cond), s0, sigma);
    }
  }

  lemma AssumeHolds(st: PathState, cond: Cond, s0: Store, sigma: Symbols)
    requires AllHold(st.when_, s0, sigma) && Holds(cond, s0, sigma)
    ensures AllHold(Assume(st, cond).when_, s0, sigma)
  {
    hide Holds;
  }

  predicate IsIn(p: Path, paths: seq<Path>) { p in paths }

  /** `p` is this run's path: its conditions held at the start and its effects
      are exactly the run's. */
  predicate TellsRun(p: Path, final: Config, s0: Store, sigma: Symbols) {
    AllHold(p.when_, s0, sigma) && p.does == final.effects
  }

  function NotesOf(st: PathState): set<Name> { set x | x in st.opaque_ }

  lemma UntoldStep(script: Script, c: Config, h: History, sigma: Symbols, n: nat)
    requires InScript(script, c) && !c.halted && n > 0
    ensures InScript(script, Step(script, c, sigma))
    ensures Untold(script, c, h, sigma, n) == UntoldHere(script, c, h, sigma)
      + Untold(script, Step(script, c, sigma), NextHistory(script, c, h, sigma), sigma, n - 1)
  {
    hide UntoldHere, Step, NextHistory;
    StepStaysInScript(script, c, sigma);
  }

  lemma NothingUntold(script: Script, c: Config, h: History, sigma: Symbols)
    requires c.at in script
    requires c.i < |script[c.at]| ==>
      var cmd := script[c.at][c.i]; IsPlain(cmd) || cmd.End? || cmd.Return?
    ensures UntoldHere(script, c, h, sigma) == {}
  {}

  lemma BranchUntold(script: Script, c: Config, h: History, sigma: Symbols, st: PathState)
    requires c.at in script && c.i < |script[c.at]| && IsBranch(script[c.at][c.i]) && st.compare == h.watch
    ensures var cmd := script[c.at][c.i];
      && UntoldHere(script, c, h, sigma)
           == Unread(cmd, h) + (if Jumps(cmd, c, sigma) then Undefined(script, cmd) else {})
      && NotesOf(Noted(cmd, st)) == NotesOf(st) + Unread(cmd, h)
  {
    hide Jumps, Undefined, NameOf, Tested, NotesOf;
    var cmd := script[c.at][c.i];
    UnreadIsNoted(cmd, h, st);
    OneMoreNote(st, NameOf(cmd));
  }

  lemma UnreadIsNoted(cmd: Cmd, h: History, st: PathState)
    requires IsBranch(cmd) && st.compare == h.watch
    ensures Unread(cmd, h) == if Tested(cmd, st).None? then {NameOf(cmd)} else {}
  {
    if cmd.IfCompared? {
      hide NameOf;
      NamedByTest(cmd);
    } else {
      ConcatEmpty("goto_if");
      ConcatEmpty("call_if");
    }
  }

  lemma OneMoreNote(st: PathState, note: Name)
    ensures NotesOf(st.(opaque_ := st.opaque_ + [note])) == NotesOf(st) + {note}
  {}

  lemma NamedByTest(cmd: Cmd)
    requires cmd.IfCompared?
    ensures var test := match cmd.op case Lt => "lt" case Eq => "eq" case Gt => "gt" case Le => "le" case Ge => "ge"
                                     case Ne => "ne";
      NameOf(cmd) == if cmd.call then "call_if_" + test else "goto_if_" + test
  {}

  lemma GotoUntold(script: Script, c: Config, h: History, sigma: Symbols)
    requires c.at in script && c.i < |script[c.at]|
    requires script[c.at][c.i].Goto? || script[c.at][c.i].Call?
    ensures UntoldHere(script, c, h, sigma) == Undefined(script, script[c.at][c.i])
  {
    hide Undefined;
  }

  lemma NotesOfMissing(script: Script, st: PathState, cmd: Cmd)
    requires cmd.Goto? || cmd.Call? || IsBranch(cmd)
    requires Target(cmd) !in script
    ensures NotesOf(Missing(st, cmd)) == NotesOf(st) + Undefined(script, cmd)
    ensures Missing(st, cmd).when_ == st.when_ && Missing(st, cmd).does == st.does
  {}

  lemma SameNotes(st: PathState, st': PathState)
    requires st.opaque_ == st'.opaque_
    ensures NotesOf(st) == NotesOf(st') && Finish(st).opaque_ == NotesOf(st)
  {}

  lemma OverIsTold(script: Script, c: Config, h: History, sigma: Symbols, n: nat)
    requires InScript(script, c) && c.halted
    ensures Untold(script, c, h, sigma, n) == {}
  {}

  /** A run from here is told by a path from here, and the path's notes are those
      it had and what the run leaves untold. */
  lemma {:induction false} RunHasPath(
    script: Script, rank: map<Label, nat>, sigma: Symbols, s0: Store,
    st: PathState, c: Config, h: History, n: nat) returns (p: Path)
    requires Ranked(script, rank) && InScript(script, c)
    requires InRange(s0)
    requires Describes(st, c, h, s0, sigma)
    requires Regular(script, c, h, sigma, n) && Run(script, c, sigma, n).halted
    ensures IsIn(p, Paths(script, rank, c.at, c.i, st))
    ensures TellsRun(p, Run(script, c, sigma, n), s0, sigma)
    ensures p.opaque_ == NotesOf(st) + Untold(script, c, h, sigma, n)
    decreases n, 2
  {
    hide Ranked, InRange, FlagsMatch, VarsMatch, WatchMatches, Holds, Plain, PlainStep, PlainHistory,
        Decide, Tested, Jumps, Readable, Work, Unvisited, AllHold, Enter, IsIn, Untold, UntoldHere, NotesOf, Undefined;
    SameNotes(st, st);
    UntoldStep(script, c, h, sigma, n);
    var c', h' := Step(script, c, sigma), NextHistory(script, c, h, sigma);
    if c.i >= |script[c.at]| {
      p := Finish(st);
      Alone(p);
      NothingUntold(script, c, h, sigma);
      OverIsTold(script, c', h', sigma, n - 1);
      return;
    }
    var cmd := script[c.at][c.i];
    if IsPlain(cmd) {
      PlainDescribes(cmd, st, c, h, s0, sigma);
      PlainMoves(cmd, c, sigma);
      PlainKeeps(cmd, st);
      SameNotes(st, Plain(cmd, st));
      NothingUntold(script, c, h, sigma);
      p := RunHasPath(script, rank, sigma, s0, Plain(cmd, st), c', h', n - 1);
    } else if cmd.End? || (cmd.Return? && st.stack == []) {
      p := Finish(st);
      Alone(p);
      Halts(script, c', sigma, n - 1);
      NothingUntold(script, c, h, sigma);
      OverIsTold(script, c', h', sigma, n - 1);
    } else if cmd.Return? {
      var top := st.stack[|st.stack| - 1];
      var st' := st.(stack := st.stack[..|st.stack| - 1]);
      SameStores(st, st', c, c', h, h', s0, sigma);
      SameNotes(st, st');
      NothingUntold(script, c, h, sigma);
      p := RunHasPath(script, rank, sigma, s0, st', c', h', n - 1);
    } else if cmd.Goto? || cmd.Call? {
      GotoUntold(script, c, h, sigma);
      p := EnteringHasPath(script, rank, sigma, s0, st, c, h, n);
    } else {
      p := BranchHasPath(script, rank, sigma, s0, st, c, h, n);
    }
  }

  lemma Alone(p: Path)
    ensures IsIn(p, [p])
  {}

  lemma Halts(script: Script, c: Config, sigma: Symbols, n: nat)
    requires InScript(script, c) && c.halted
    ensures Run(script, c, sigma, n) == c
  {}

  lemma PlainMoves(cmd: Cmd, c: Config, sigma: Symbols)
    requires IsPlain(cmd)
    ensures var d := PlainStep(cmd, c, sigma); d.at == c.at && d.i == c.i + 1 && d.stack == c.stack
  {}

  /** Steps that move control only leave the description of the state alone. */
  lemma SameStores(st: PathState, st': PathState, c: Config, c': Config, h: History, h': History, s0: Store,
      sigma: Symbols)
    requires Describes(st, c, h, s0, sigma)
    requires st' == st.(stack := st'.stack, trail := st'.trail, opaque_ := st'.opaque_)
    requires c' == c.(at := c'.at, i := c'.i, stack := c'.stack)
    requires h' == h.(entered := h'.entered)
    requires c'.stack == st'.stack && h'.entered == st'.trail
    ensures Describes(st', c', h', s0, sigma)
  {
    hide Holds, Meaning, Get, VarMatches;
    forall w: Name
      ensures VarMatches(w, st'.env, h', c'.store, s0, sigma)
    {
      assert VarMatches(w, st.env, h, c.store, s0, sigma);
      OtherCommand(w, st.env, h, h', c.store, c'.store, s0, sigma);
    }
  }

  lemma EnteringHasPath(
    script: Script, rank: map<Label, nat>, sigma: Symbols, s0: Store,
    st: PathState, c: Config, h: History, n: nat) returns (p: Path)
    requires Ranked(script, rank) && InScript(script, c)
    requires InRange(s0)
    requires Describes(st, c, h, s0, sigma)
    requires n > 0 && c.i < |script[c.at]|
    requires var cmd := script[c.at][c.i];
             (cmd.Goto? || cmd.Call? || IsBranch(cmd)) && (IsBranch(cmd) ==> Jumps(cmd, c, sigma))
    requires Regular(script, c, h, sigma, n) && Run(script, c, sigma, n).halted
    ensures IsIn(p, Enter(script, rank, c.at, c.i, st))
    ensures TellsRun(p, Run(script, c, sigma, n), s0, sigma)
    ensures p.opaque_ == NotesOf(st) + Undefined(script, script[c.at][c.i])
      + Untold(script, Step(script, c, sigma), NextHistory(script, c, h, sigma), sigma, n - 1)
    decreases n, 0
  {
    hide Ranked, InRange, FlagsMatch, VarsMatch, WatchMatches, Holds, Plain, Decide, Tested, Readable,
        Work, Unvisited, AllHold, Paths, IsIn, Jumps, Untold, NotesOf, Missing;
    var cmd := script[c.at][c.i];
    var target := Target(cmd);
    var c', h' := Step(script, c, sigma), NextHistory(script, c, h, sigma);
    NotPlain(cmd);
    assert c' == FollowStep(script, cmd, c);
    if target !in script {
      p := Finish(Missing(st, cmd));
      Alone(p);
      Halts(script, c', sigma, n - 1);
      NotesOfMissing(script, st, cmd);
      SameNotes(Missing(st, cmd), Missing(st, cmd));
      OverIsTold(script, c', h', sigma, n - 1);
    } else if IsCall(cmd) {
      var st' := st.(stack := st.stack + [Frame(c.at, c.i + 1)]);
      SameStores(st, st', c, c', h, h', s0, sigma);
      SameNotes(st, st');
      p := RunHasPath(script, rank, sigma, s0, st', c', h', n - 1);
    } else {
      assert GoesTo(script, cmd, c, sigma);
      assert target !in st.trail;
      var st' := st.(trail := st.trail + {target});
      SameStores(st, st', c, c', h, h', s0, sigma);
      SameNotes(st, st');
      p := RunHasPath(script, rank, sigma, s0, st', c', h', n - 1);
    }
  }

  lemma NotPlain(cmd: Cmd)
    requires cmd.Goto? || cmd.Call? || IsBranch(cmd)
    ensures !IsPlain(cmd) && !cmd.End? && !cmd.Return?
  {}

  lemma BranchHasPath(
    script: Script, rank: map<Label, nat>, sigma: Symbols, s0: Store,
    st: PathState, c: Config, h: History, n: nat) returns (p: Path)
    requires Ranked(script, rank) && InScript(script, c)
    requires InRange(s0)
    requires Describes(st, c, h, s0, sigma)
    requires n > 0 && c.i < |script[c.at]| && IsBranch(script[c.at][c.i])
    requires Regular(script, c, h, sigma, n) && Run(script, c, sigma, n).halted
    ensures IsIn(p, Paths(script, rank, c.at, c.i, st))
    ensures TellsRun(p, Run(script, c, sigma, n), s0, sigma)
    ensures p.opaque_ == NotesOf(st) + Untold(script, c, h, sigma, n)
    decreases n, 1
  {
    hide Ranked, InRange, FlagsMatch, VarsMatch, WatchMatches, Holds, Plain, Decide, Tested, Readable,
        Work, Unvisited, AllHold, Enter, IsIn, Jumps, Untold, UntoldHere, NotesOf, Undefined, Unread;
    var cmd := script[c.at][c.i];
    NotPlain(cmd);
    var noted := Noted(cmd, st);
    UntoldStep(script, c, h, sigma, n);
    ComparedIsWatched(st, c, h, s0, sigma);
    BranchUntold(script, c, h, sigma, st);
    SameStores(st, noted, c, c, h, h, s0, sigma);
    var tested, jumps := Tested(cmd, st), Jumps(cmd, c, sigma);
    var decision := Decide(tested, st);
    if tested.Some? {
      TestedIsTheTest(cmd, st, c, h, s0, sigma);
      DecisionIsRight(tested.value, st, c, h, s0, sigma);
    } else {
      NoConditionIsBoth(st);
    }
    var chosen := noted;
    if decision.Fork? {
      NegationIsExact(decision.cond, s0, sigma);
      chosen := Assume(noted, if jumps then decision.cond else Negate(decision.cond));
      AssumeHolds(noted, if jumps then decision.cond else Negate(decision.cond), s0, sigma);
      MoreAssumed(noted, chosen, c, h, s0, sigma);
    }
    SameNotes(noted, chosen);
    if jumps {
      p := EnteringHasPath(script, rank, sigma, s0, chosen, c, h, n);
    } else {
      var c' := Step(script, c, sigma);
      SameStores(chosen, chosen, c, c', h, h, s0, sigma);
      p := RunHasPath(script, rank, sigma, s0, chosen, c', h, n - 1);
    }
    BranchPaths(script, rank, c.at, c.i, st, p, chosen, jumps);
  }

  lemma ComparedIsWatched(st: PathState, c: Config, h: History, s0: Store, sigma: Symbols)
    requires Describes(st, c, h, s0, sigma)
    ensures st.compare == h.watch
  {}

  lemma NoConditionIsBoth(st: PathState)
    ensures Decide(None, st) == Both
  {}

  lemma MoreAssumed(st: PathState, st': PathState, c: Config, h: History, s0: Store, sigma: Symbols)
    requires Describes(st, c, h, s0, sigma)
    requires st' == st.(when_ := st'.when_) && AllHold(st'.when_, s0, sigma)
    ensures Describes(st', c, h, s0, sigma)
  {
    hide Holds, Meaning, Get;
  }

  /** A path of the side a run takes is a path of the branch. */
  lemma BranchPaths(script: Script, rank: map<Label, nat>, here: Label, i: nat, st: PathState, p: Path,
      chosen: PathState, jumps: bool)
    requires Ranked(script, rank) && here in script && StackIn(script, st.stack)
    requires i < |script[here]| && IsBranch(script[here][i])
    requires var cmd := script[here][i];
             var noted := Noted(cmd, st);
             && StackIn(script, chosen.stack)
             && match Decide(Tested(cmd, st), st)
                case Fork(k) => chosen == Assume(noted, if jumps then k else Negate(k))
                case Both => chosen == noted
                case Take => chosen == noted && jumps
                case Skip => chosen == noted && !jumps
    requires IsIn(p, if jumps then Enter(script, rank, here, i, chosen) else Paths(script, rank, here, i + 1, chosen))
    ensures IsIn(p, Paths(script, rank, here, i, st))
  {
    hide Ranked, Decide, Tested, Noted, Work, Unvisited, Enter, IsIn, Plain;
    var cmd := script[here][i];
    NotPlain(cmd);
    var noted := Noted(cmd, st);
    match Decide(Tested(cmd, st), st)
    case Fork(k) =>
      var otherwise := Assume(noted, Negate(k));
      InEither(p, Enter(script, rank, here, i, Assume(noted, k)), Paths(script, rank, here, i + 1, otherwise));
    case Both => InEither(p, Enter(script, rank, here, i, noted), Paths(script, rank, here, i + 1, noted));
    case Take =>
    case Skip =>
  }

  lemma InEither(p: Path, x: seq<Path>, y: seq<Path>)
    ensures IsIn(p, x) || IsIn(p, y) ==> IsIn(p, x + y)
  {}

  // ---- Exclusion ----

  /** Paths found from `st` on keep its conditions and its notes. */
  ghost predicate ExtendsState(p: Path, st: PathState) {
    && st.when_ <= p.when_
    && (forall x :: x in st.opaque_ ==> x in p.opaque_)
  }

  ghost predicate AllExtend(paths: seq<Path>, st: PathState) {
    forall k :: 0 <= k < |paths| ==> ExtendsState(paths[k], st)
  }

  lemma FinishExtends(st: PathState, st': PathState)
    requires st'.when_ == st.when_ && st.opaque_ <= st'.opaque_
    ensures AllExtend([Finish(st')], st)
  {}

  lemma ExtendsMore(paths: seq<Path>, st: PathState, st': PathState)
    requires AllExtend(paths, st') && st.when_ <= st'.when_ && st.opaque_ <= st'.opaque_
    ensures AllExtend(paths, st)
  {}

  lemma BothExtend(x: seq<Path>, y: seq<Path>, st: PathState)
    requires AllExtend(x, st) && AllExtend(y, st)
    ensures AllExtend(x + y, st)
  {
    hide ExtendsState;
  }

  lemma {:induction false} PathsExtend(script: Script, rank: map<Label, nat>, here: Label, i: nat, st: PathState)
    requires Ranked(script, rank) && here in script && StackIn(script, st.stack)
    ensures AllExtend(Paths(script, rank, here, i, st), st)
    decreases Unvisited(script, st.trail), Work(script, rank, here, i, st.stack), 0
  {
    hide Ranked, Work, Unvisited, Decide, Plain, AllExtend, Finish, Tested, Enter;
    if i >= |script[here]| {
      FinishExtends(st, st);
    } else {
      var cmd := script[here][i];
      NextWork(script, rank, here, i, st.stack);
      if IsPlain(cmd) {
        PlainKeeps(cmd, st);
        PathsExtend(script, rank, here, i + 1, Plain(cmd, st));
        ExtendsMore(Paths(script, rank, here, i + 1, Plain(cmd, st)), st, Plain(cmd, st));
      } else if cmd.Return? && st.stack != [] {
        ReturnWork(script, rank, here, i, st.stack);
        var top, st' := st.stack[|st.stack| - 1], st.(stack := st.stack[..|st.stack| - 1]);
        PathsExtend(script, rank, top.at, top.i, st');
        ExtendsMore(Paths(script, rank, top.at, top.i, st'), st, st');
      } else if cmd.End? || cmd.Return? {
        FinishExtends(st, st);
      } else if cmd.Goto? || cmd.Call? {
        EnterExtends(script, rank, here, i, st, st);
      } else {
        var noted := Noted(cmd, st);
        match Decide(Tested(cmd, st), st)
        case Fork(c) =>
          EnterExtends(script, rank, here, i, st, Assume(noted, c));
          NextExtends(script, rank, here, i, st, Assume(noted, Negate(c)));
          var otherwise := Assume(noted, Negate(c));
          BothExtend(Enter(script, rank, here, i, Assume(noted, c)), Paths(script, rank, here, i + 1, otherwise), st);
        case Both =>
          EnterExtends(script, rank, here, i, st, noted);
          NextExtends(script, rank, here, i, st, noted);
          BothExtend(Enter(script, rank, here, i, noted), Paths(script, rank, here, i + 1, noted), st);
        case Take => EnterExtends(script, rank, here, i, st, noted);
        case Skip => NextExtends(script, rank, here, i, st, noted);
      }
    }
  }

  lemma NextExtends(script: Script, rank: map<Label, nat>, here: Label, i: nat, st: PathState, st': PathState)
    requires Ranked(script, rank) && here in script && StackIn(script, st.stack) && i < |script[here]|
    requires st'.trail == st.trail && st'.stack == st.stack && st.when_ <= st'.when_ && st.opaque_ <= st'.opaque_
    ensures AllExtend(Paths(script, rank, here, i + 1, st'), st)
    decreases Unvisited(script, st.trail), Work(script, rank, here, i, st.stack), -1
  {
    hide Ranked, Work, Unvisited, Paths, AllExtend;
    NextWork(script, rank, here, i, st.stack);
    PathsExtend(script, rank, here, i + 1, st');
    ExtendsMore(Paths(script, rank, here, i + 1, st'), st, st');
  }

  lemma {:induction false} EnterExtends(script: Script, rank: map<Label, nat>, here: Label, i: nat, st: PathState,
      st': PathState)
    requires Ranked(script, rank) && here in script && StackIn(script, st.stack)
    requires st'.trail == st.trail && st'.stack == st.stack && st.when_ <= st'.when_ && st.opaque_ <= st'.opaque_
    requires i < |script[here]|
    requires var cmd := script[here][i]; cmd.Goto? || cmd.Call? || IsBranch(cmd)
    ensures AllExtend(Enter(script, rank, here, i, st'), st)
    decreases Unvisited(script, st.trail), Work(script, rank, here, i, st.stack), -1
  {
    hide Ranked, Work, Unvisited, Paths, AllExtend, Finish;
    var cmd := script[here][i];
    var target := Target(cmd);
    FinishExtends(st', st');
    FinishExtends(st', Missing(st', cmd));
    if target in script {
      if IsCall(cmd) {
        CallWork(script, rank, here, i, st.stack, target);
        PathsExtend(script, rank, target, 0, st'.(stack := st.stack + [Frame(here, i + 1)]));
        ExtendsMore(Paths(script, rank, target, 0, st'.(stack := st.stack + [Frame(here, i + 1)])), st',
            st'.(stack := st.stack + [Frame(here, i + 1)]));
      } else if target !in st.trail {
        JumpUsesUpALabel(script, st.trail, target);
        PathsExtend(script, rank, target, 0, st'.(trail := st.trail + {target}));
        ExtendsMore(Paths(script, rank, target, 0, st'.(trail := st.trail + {target})), st',
            st'.(trail := st.trail + {target}));
      }
    }
    ExtendsMore(Enter(script, rank, here, i, st'), st, st');
  }

  /** At most one of the paths without notes can hold in any one state. */
  ghost predicate Exclusive(paths: seq<Path>) {
    forall j, k, s, sigma: Symbols :: 0 <= j < |paths| && 0 <= k < |paths| && j != k && paths[j].opaque_ == {} ==>
      !(AllHold(paths[j].when_, s, sigma) && AllHold(paths[k].when_, s, sigma))
  }

  lemma OneIsExclusive(p: Path)
    ensures Exclusive([p])
  {}

  /** The two sides of a fork exclude each other; the two sides of a branch
      without a known condition are both noted. */
  lemma SidesExclude(x: seq<Path>, y: seq<Path>, stx: PathState, sty: PathState)
    requires Exclusive(x) && Exclusive(y) && AllExtend(x, stx) && AllExtend(y, sty)
    requires (stx.opaque_ != [] && sty.opaque_ != []) ||
             (exists st, c: Cond :: stx == Assume(st, c) && sty == Assume(st, Negate(c)))
    ensures Exclusive(x + y)
  {
    hide ExtendsState, AllHold;
    forall j, k, s, sigma: Symbols | 0 <= j < |x + y| && 0 <= k < |x + y| && j != k && (x + y)[j].opaque_ == {}
      ensures !(AllHold((x + y)[j].when_, s, sigma) && AllHold((x + y)[k].when_, s, sigma))
    {
      if j < |x| && k < |x| {
        assert (x + y)[j] == x[j] && (x + y)[k] == x[k];
      } else if j >= |x| && k >= |x| {
        assert (x + y)[j] == y[j - |x|] && (x + y)[k] == y[k - |x|];
      } else if j < |x| {
        Opposed(x[j], stx, y[k - |x|], sty, s, sigma);
      } else {
        Opposed(x[k], stx, y[j - |x|], sty, s, sigma);
      }
    }
  }

  lemma Opposed(p: Path, stx: PathState, q: Path, sty: PathState, s: Store, sigma: Symbols)
    requires ExtendsState(p, stx) && ExtendsState(q, sty)
    requires (stx.opaque_ != [] && sty.opaque_ != []) ||
             (exists st, c: Cond :: stx == Assume(st, c) && sty == Assume(st, Negate(c)))
    ensures (p.opaque_ != {} && q.opaque_ != {}) || !(AllHold(p.when_, s, sigma) && AllHold(q.when_, s, sigma))
  {
    if stx.opaque_ != [] && sty.opaque_ != [] {
      assert stx.opaque_[0] in p.opaque_ && sty.opaque_[0] in q.opaque_;
    } else {
      var st, c: Cond :| stx == Assume(st, c) && sty == Assume(st, Negate(c));
      NegationIsExact(c, s, sigma);
      var n := |st.when_|;
      assert p.when_[n] == stx.when_[n] == c;
      assert q.when_[n] == sty.when_[n] == Negate(c);
    }
  }

  lemma {:induction false} PathsAreExclusive(script: Script, rank: map<Label, nat>, here: Label, i: nat, st: PathState)
    requires Ranked(script, rank) && here in script && StackIn(script, st.stack)
    ensures Exclusive(Paths(script, rank, here, i, st))
    decreases Unvisited(script, st.trail), Work(script, rank, here, i, st.stack), 0
  {
    hide Ranked, Work, Unvisited, Decide, Plain, AllExtend, Exclusive, Finish, Tested, Enter;
    if i >= |script[here]| {
      OneIsExclusive(Finish(st));
    } else {
      var cmd := script[here][i];
      NextWork(script, rank, here, i, st.stack);
      if IsPlain(cmd) {
        PlainKeeps(cmd, st);
        PathsAreExclusive(script, rank, here, i + 1, Plain(cmd, st));
      } else if cmd.Return? && st.stack != [] {
        ReturnWork(script, rank, here, i, st.stack);
        var top := st.stack[|st.stack| - 1];
        PathsAreExclusive(script, rank, top.at, top.i, st.(stack := st.stack[..|st.stack| - 1]));
      } else if cmd.End? || cmd.Return? {
        OneIsExclusive(Finish(st));
      } else if cmd.Goto? || cmd.Call? {
        EnterIsExclusive(script, rank, here, i, st);
      } else {
        var noted := Noted(cmd, st);
        match Decide(Tested(cmd, st), st)
        case Fork(c) =>
          var stx, sty := Assume(noted, c), Assume(noted, Negate(c));
          EnterIsExclusive(script, rank, here, i, stx);
          PathsAreExclusive(script, rank, here, i + 1, sty);
          EnterExtends(script, rank, here, i, stx, stx);
          PathsExtend(script, rank, here, i + 1, sty);
          SidesExclude(Enter(script, rank, here, i, stx), Paths(script, rank, here, i + 1, sty), stx, sty);
        case Both =>
          EnterIsExclusive(script, rank, here, i, noted);
          PathsAreExclusive(script, rank, here, i + 1, noted);
          EnterExtends(script, rank, here, i, noted, noted);
          PathsExtend(script, rank, here, i + 1, noted);
          BothIsNoted(cmd, st);
          SidesExclude(Enter(script, rank, here, i, noted), Paths(script, rank, here, i + 1, noted), noted, noted);
        case Take => EnterIsExclusive(script, rank, here, i, noted);
        case Skip => PathsAreExclusive(script, rank, here, i + 1, noted);
      }
    }
  }

  lemma BothIsNoted(cmd: Cmd, st: PathState)
    requires IsBranch(cmd) && Decide(Tested(cmd, st), st) == Both
    ensures Noted(cmd, st).opaque_ != []
  {
    hide Consistent, StaticEval;
  }

  lemma {:induction false} EnterIsExclusive(script: Script, rank: map<Label, nat>, here: Label, i: nat, st: PathState)
    requires Ranked(script, rank) && here in script && StackIn(script, st.stack)
    requires i < |script[here]|
    requires var cmd := script[here][i]; cmd.Goto? || cmd.Call? || IsBranch(cmd)
    ensures Exclusive(Enter(script, rank, here, i, st))
    decreases Unvisited(script, st.trail), Work(script, rank, here, i, st.stack), -1
  {
    hide Ranked, Work, Unvisited, Paths, Exclusive, Finish;
    var cmd := script[here][i];
    var target := Target(cmd);
    OneIsExclusive(Finish(st));
    OneIsExclusive(Finish(Missing(st, cmd)));
    if target in script {
      if IsCall(cmd) {
        CallWork(script, rank, here, i, st.stack, target);
        PathsAreExclusive(script, rank, target, 0, st.(stack := st.stack + [Frame(here, i + 1)]));
      } else if target !in st.trail {
        JumpUsesUpALabel(script, st.trail, target);
        PathsAreExclusive(script, rank, target, 0, st.(trail := st.trail + {target}));
      }
    }
  }

  // ---- The theorems ----

  /** A finished run from `entry` that keeps to the compiler's assumptions has a
      compiled path whose conditions hold at its start, whose effects are
      exactly the run's and whose notes are exactly what the run leaves untold.
      Any compiled path without notes whose conditions hold there is that one,
      and then the run leaves nothing untold. */
  lemma CompiledPathsMeanTheRun(script: Script, rank: map<Label, nat>, sigma: Symbols, entry: Label, s0: Store, n: nat)
    requires Ranked(script, rank) && entry in script
    requires InRange(s0)
    requires Regular(script, Boot(entry, s0), Begun(entry), sigma, n)
    requires Run(script, Boot(entry, s0), sigma, n).halted
    ensures var paths := Paths(script, rank, entry, 0, Start(entry));
            var final := Run(script, Boot(entry, s0), sigma, n);
            var untold := Untold(script, Boot(entry, s0), Begun(entry), sigma, n);
            && (exists k :: 0 <= k < |paths| && TellsRun(paths[k], final, s0, sigma) && paths[k].opaque_ == untold)
            && (forall k :: 0 <= k < |paths| && paths[k].opaque_ == {} && AllHold(paths[k].when_, s0, sigma) ==>
                  TellsRun(paths[k], final, s0, sigma) && untold == {})
  {
    hide Paths, Run, Regular, Ranked, InRange, AllHold, VarsMatch, Untold;
    StartDescribes(entry, s0, sigma);
    var p := RunHasPath(script, rank, sigma, s0, Start(entry), Boot(entry, s0), Begun(entry), n);
    var paths := Paths(script, rank, entry, 0, Start(entry));
    var k :| 0 <= k < |paths| && paths[k] == p;
    PathsAreExclusive(script, rank, entry, 0, Start(entry));
    assert TellsRun(paths[k], Run(script, Boot(entry, s0), sigma, n), s0, sigma);
  }

  lemma StartDescribes(entry: Label, s0: Store, sigma: Symbols)
    ensures Describes(Start(entry), Boot(entry, s0), Begun(entry), s0, sigma)
  {
    hide Meaning, Get;
  }

  /** The uncapped compiler emits exactly these paths. */
  method CompileWhole(script: Script, ghost rank: map<Label, nat>, entry: Label) returns (paths: seq<Path>, whole: bool)
    requires Ranked(script, rank) && entry in script
    ensures whole ==> paths == Paths(script, rank, entry, 0, Start(entry))
    ensures !whole ==> |Paths(script, rank, entry, 0, Start(entry))| > 512
                       && paths == Paths(script, rank, entry, 0, Start(entry))[..512]
  {
    hide Paths, Ranked;
    var compiler := new Compiler(script);
    var missing := compiler.Compile(rank, entry);
    paths, whole := compiler.paths, !compiler.truncated;
    ConcatEmpty(Paths(script, rank, entry, 0, Start(entry)));
  }

  // ---- Every emitted path can happen ----

  predicate NumericScript(script: Script) {
    forall here, i :: here in script && 0 <= i < |script[here]| ==>
      var cmd := script[here][i];
      && (cmd.IfVar? ==> cmd.value.Num?)
      && (cmd.CompareVar? ==> cmd.value.Num?)
  }

  ghost predicate Sane(when_: seq<Cond>) {
    Coherent(when_) && forall k :: 0 <= k < |when_| ==> Numeric(when_[k])
  }

  ghost predicate AllSane(paths: seq<Path>) {
    forall k :: 0 <= k < |paths| ==> Sane(paths[k].when_)
  }

  predicate NumericCompare(st: PathState) { st.compare.AVar? ==> st.compare.value.Num? }

  lemma ForkStaysSane(script: Script, here: Label, i: nat, st: PathState, c: Cond)
    requires NumericScript(script) && here in script && i < |script[here]| && IsBranch(script[here][i])
    requires Sane(st.when_) && NumericCompare(st)
    requires Decide(Tested(script[here][i], st), st) == Fork(c)
    ensures Sane(st.when_ + [c]) && Sane(st.when_ + [Negate(c)])
  {
    hide Coherent, Consistent;
    var cmd := script[here][i];
    CoherentGrows(st.when_, c);
    CoherentGrows(st.when_, Negate(c));
  }

  lemma PlainStaysNumeric(script: Script, here: Label, i: nat, st: PathState)
    requires NumericScript(script) && here in script && i < |script[here]| && IsPlain(script[here][i])
    requires NumericCompare(st)
    ensures NumericCompare(Plain(script[here][i], st))
  {}

  lemma OneIsSane(st: PathState)
    requires Sane(st.when_)
    ensures AllSane([Finish(st)])
  {}

  lemma BothAreSane(x: seq<Path>, y: seq<Path>)
    requires AllSane(x) && AllSane(y)
    ensures AllSane(x + y)
  {
    hide Sane;
  }

  lemma {:induction false} PathsAreSane(script: Script, rank: map<Label, nat>, here: Label, i: nat, st: PathState)
    requires Ranked(script, rank) && here in script && StackIn(script, st.stack)
    requires NumericScript(script) && Sane(st.when_) && NumericCompare(st)
    ensures AllSane(Paths(script, rank, here, i, st))
    decreases Unvisited(script, st.trail), Work(script, rank, here, i, st.stack), 0
  {
    hide Ranked, Work, Unvisited, Decide, Plain, AllSane, Sane, Finish, Tested, Enter, NumericScript;
    if i >= |script[here]| {
      OneIsSane(st);
    } else {
      var cmd := script[here][i];
      NextWork(script, rank, here, i, st.stack);
      if IsPlain(cmd) {
        PlainKeeps(cmd, st);
        PlainStaysNumeric(script, here, i, st);
        PathsAreSane(script, rank, here, i + 1, Plain(cmd, st));
      } else if cmd.Return? && st.stack != [] {
        ReturnWork(script, rank, here, i, st.stack);
        var top := st.stack[|st.stack| - 1];
        PathsAreSane(script, rank, top.at, top.i, st.(stack := st.stack[..|st.stack| - 1]));
      } else if cmd.End? || cmd.Return? {
        OneIsSane(st);
      } else if cmd.Goto? || cmd.Call? {
        EnterIsSane(script, rank, here, i, st);
      } else {
        var noted := Noted(cmd, st);
        match Decide(Tested(cmd, st), st)
        case Fork(c) =>
          ForkStaysSane(script, here, i, st, c);
          var stx, sty := Assume(noted, c), Assume(noted, Negate(c));
          EnterIsSane(script, rank, here, i, stx);
          PathsAreSane(script, rank, here, i + 1, sty);
          BothAreSane(Enter(script, rank, here, i, stx), Paths(script, rank, here, i + 1, sty));
        case Both =>
          EnterIsSane(script, rank, here, i, noted);
          PathsAreSane(script, rank, here, i + 1, noted);
          BothAreSane(Enter(script, rank, here, i, noted), Paths(script, rank, here, i + 1, noted));
        case Take => EnterIsSane(script, rank, here, i, noted);
        case Skip => PathsAreSane(script, rank, here, i + 1, noted);
      }
    }
  }

  lemma {:induction false} EnterIsSane(script: Script, rank: map<Label, nat>, here: Label, i: nat, st: PathState)
    requires Ranked(script, rank) && here in script && StackIn(script, st.stack)
    requires NumericScript(script) && Sane(st.when_) && NumericCompare(st)
    requires i < |script[here]|
    requires var cmd := script[here][i]; cmd.Goto? || cmd.Call? || IsBranch(cmd)
    ensures AllSane(Enter(script, rank, here, i, st))
    decreases Unvisited(script, st.trail), Work(script, rank, here, i, st.stack), -1
  {
    hide Ranked, Work, Unvisited, Paths, AllSane, Sane, Finish, NumericScript;
    var cmd := script[here][i];
    var target := Target(cmd);
    OneIsSane(st);
    OneIsSane(Missing(st, cmd));
    if target in script {
      if IsCall(cmd) {
        CallWork(script, rank, here, i, st.stack, target);
        PathsAreSane(script, rank, target, 0, st.(stack := st.stack + [Frame(here, i + 1)]));
      } else if target !in st.trail {
        JumpUsesUpALabel(script, st.trail, target);
        PathsAreSane(script, rank, target, 0, st.(trail := st.trail + {target}));
      }
    }
  }

  /** The pruning leaves nothing impossible: in a script that compares with
      numbers only, every emitted path's conditions hold in some state whose
      vars are in range. */
  lemma EveryPathIsFeasible(script: Script, rank: map<Label, nat>, entry: Label, k: nat,
      sigma: Symbols) returns (s: Store)
    requires Ranked(script, rank) && entry in script && NumericScript(script)
    requires k < |Paths(script, rank, entry, 0, Start(entry))|
    ensures InRange(s) && AllHold(Paths(script, rank, entry, 0, Start(entry))[k].when_, s, sigma)
  {
    hide Paths, Ranked, NumericScript, Coherent, InRange, AllHold;
    NothingIsCoherent();
    PathsAreSane(script, rank, entry, 0, Start(entry));
    var p := Paths(script, rank, entry, 0, Start(entry))[k];
    assert Sane(p.when_);
    s := CoherentIsFeasible(p.when_, sigma);
  }
}
