/** The symbolic path enumerator of the event scripts: calls are inlined, gotos
    followed once per label, and at every branch the taken side comes first.
    `Paths` is the full enumeration; the class produces it into a list capped at
    512 paths. */
module EventCompiler {
  import opened Seqs
  import opened EventConditions
  import opened Walks
  import opened Wrappers

  type Label = string

  datatype Cmd =
    | Ignored
    | End
    | Return
    | Goto(target: Label)
    | Call(target: Label)
    | IfKey(key: Key, is_: bool, target: Label, call: bool)
    | IfVar(v: Name, op: Op, value: Value, target: Label, call: bool)
    | CompareVar(v: Name, value: Value)
    | CheckKey(key: Key)
    | IfCompared(op: Op, target: Label, call: bool)
    | IfCode(code: Option<Op>, target: Label, call: bool)
    | SetKey(key: Key)
    | ClearKey(key: Key)
    | SetVar(v: Name, value: Value)
    | AddVar(v: Name, value: Value)
    | SubVar(v: Name, value: Value)
    | Say(text: Name)

  type Script = map<Label, seq<Cmd>>

  datatype Effect =
    | KeySet(key: Key)
    | KeyCleared(key: Key)
    | VarSet(v: Name, value: Value)
    | VarAdded(v: Name, value: Value)
    | VarSubbed(v: Name, value: Value)
    | Said(text: Name)

  /** What `compare` or `checkflag` last looked at. */
  datatype Compared = Nothing | AVar(v: Name, value: Value) | AKey(key: Key)

  /** A return address of an inlined call. */
  datatype Frame = Frame(at: Label, i: nat)

  datatype PathState = PathState(
    when_: seq<Cond>,
    does: seq<Effect>,
    opaque_: seq<Name>,
    env: map<Name, Value>,
    compare: Compared,
    trail: set<Label>,
    stack: seq<Frame>,
    flags: map<Key, bool>)

  datatype Path = Path(when_: seq<Cond>, does: seq<Effect>, opaque_: set<Name>)

  const MAX_PATHS := 512

  function Finish(st: PathState): Path {
    Path(st.when_, st.does, set x | x in st.opaque_)
  }

  // ---- Straight-line commands ----

  /** `env.pop(var)`, and the value put back when it stays known. */
  function Forget(env: map<Name, Value>, v: Name): map<Name, Value> { env - {v} }

  function Added(env: map<Name, Value>, v: Name, delta: Value, sign: int): map<Name, Value> {
    if v in env && env[v].Num? && delta.Num?
    then Forget(env, v)[v := Num(env[v].n + sign * delta.n)]
    else Forget(env, v)
  }

  predicate IsPlain(cmd: Cmd) {
    cmd.Ignored? || cmd.CompareVar? || cmd.CheckKey? || cmd.SetKey? || cmd.ClearKey?
    || cmd.SetVar? || cmd.AddVar? || cmd.SubVar? || cmd.Say?
  }

  function Plain(cmd: Cmd, st: PathState): PathState
    requires IsPlain(cmd)
  {
    match cmd
    case Ignored => st
    case CompareVar(v, value) => st.(compare := AVar(v, value))
    case CheckKey(key) => st.(compare := AKey(key))
    case SetKey(key) => st.(does := st.does + [KeySet(key)], flags := st.flags[key := true])
    case ClearKey(key) => st.(does := st.does + [KeyCleared(key)], flags := st.flags[key := false])
    case SetVar(v, value) => st.(does := st.does + [VarSet(v, value)], env := Forget(st.env, v)[v := value])
    case AddVar(v, value) => st.(does := st.does + [VarAdded(v, value)], env := Added(st.env, v, value, 1))
    case SubVar(v, value) => st.(does := st.does + [VarSubbed(v, value)], env := Added(st.env, v, value, -1))
    case Say(text) => st.(does := st.does + [Said(text)])
  }

  // ---- Branches ----

  predicate IsBranch(cmd: Cmd) { cmd.IfKey? || cmd.IfVar? || cmd.IfCompared? || cmd.IfCode? }

  /** The condition a branch tests, if the compiler knows one. */
  function Tested(cmd: Cmd, st: PathState): Option<Cond>
    requires IsBranch(cmd)
  {
    match cmd
    case IfKey(key, is_, _, _) => Some(KeyIs(key, is_))
    case IfVar(v, op, value, _, _) => Some(VarIs(v, op, value))
    case IfCompared(op, _, _) =>
      if st.compare.AVar? then Some(VarIs(st.compare.v, op, st.compare.value)) else None
    case IfCode(code, _, _) =>
      if st.compare.Nothing? || code.None? then None
      else if st.compare.AKey? then Some(KeyIs(st.compare.key, code.value == Eq))
      else Some(VarIs(st.compare.v, code.value, st.compare.value))
  }

  function Suffix(op: Op): string {
    match op case Lt => "_lt" case Eq => "_eq" case Gt => "_gt" case Le => "_le" case Ge => "_ge" case Ne => "_ne"
  }

  /** The name of a command that tests what was compared before it. */
  function NameOf(cmd: Cmd): Name
    requires IsBranch(cmd)
  {
    (if cmd.call then "call_if" else "goto_if") + if cmd.IfCompared? then Suffix(cmd.op) else ""
  }

  /** A branch without a known condition is noted on the path. */
  function Noted(cmd: Cmd, st: PathState): PathState
    requires IsBranch(cmd)
  {
    if Tested(cmd, st).None? then st.(opaque_ := st.opaque_ + [NameOf(cmd)]) else st
  }

  datatype Decision = Fork(cond: Cond) | Both | Take | Skip

  ghost function Decide(cond: Option<Cond>, st: PathState): Decision {
    if cond.None? then Both
    else
      var c := cond.value;
      match StaticEval(c, st.env, st.flags)
      case Some(b) => if b then Take else Skip
      case None =>
        if !Consistent(st.when_, c) then Skip
        else if !Consistent(st.when_, Negate(c)) then Take
        else Fork(c)
  }

  function Assume(st: PathState, c: Cond): PathState { st.(when_ := st.when_ + [c]) }

  /** A target that is not there is noted, with how it was to be reached. */
  function Missing(st: PathState, cmd: Cmd): PathState
    requires cmd.Goto? || cmd.Call? || IsBranch(cmd)
  {
    st.(opaque_ := st.opaque_ + [(if IsCall(cmd) then "call " else "goto ") + Target(cmd)])
  }

  // ---- Termination ----

  /** The call graph has no cycle: calls go to labels of lower rank. */
  predicate Ranked(script: Script, rank: map<Label, nat>) {
    && (forall here :: here in script ==> here in rank)
    && (forall here, i :: here in script && 0 <= i < |script[here]| ==>
          var cmd := script[here][i];
          CallTarget(cmd).Some? && CallTarget(cmd).value in script ==> rank[CallTarget(cmd).value] < rank[here])
  }

  function CallTarget(cmd: Cmd): Option<Label> {
    match cmd
    case Call(t) => Some(t)
    case IfKey(_, _, t, true) => Some(t)
    case IfVar(_, _, _, t, true) => Some(t)
    case IfCompared(_, t, true) => Some(t)
    case IfCode(_, t, true) => Some(t)
    case _ => None
  }

  // ---- A rank is there just when no label calls itself ----

  predicate Calls(script: Script, here: Label, target: Label) {
    && here in script && target in script
    && exists i :: 0 <= i < |script[here]| && CallTarget(script[here][i]) == Some(target)
  }

  ghost function CallsOf(script: Script): Relation<Label> {
    (here: Label, target: Label) => Calls(script, here, target)
  }

  /** A label calls itself, through however many others. */
  ghost predicate Recursive(script: Script) {
    exists w :: IsWalk(CallsOf(script), w) && |w| > 1 && w[0] == w[|w| - 1]
  }

  ghost predicate CanBeRanked(script: Script) {
    exists rank :: Ranked(script, rank)
  }

  lemma RankedIffNotRecursive(script: Script)
    ensures CanBeRanked(script) <==> !Recursive(script)
  {
    hide Ranked, IsWalk;
    if CanBeRanked(script) && Recursive(script) {
      var rank :| Ranked(script, rank);
      var w :| IsWalk(CallsOf(script), w) && |w| > 1 && w[0] == w[|w| - 1];
      CallsGoDown(script, rank, w);
      assert false;
    }
    if !Recursive(script) {
      var rank := RankTheRest(script, map[]);
    }
  }

  lemma {:induction false} CallsGoDown(script: Script, rank: map<Label, nat>, w: seq<Label>)
    requires Ranked(script, rank) && IsWalk(CallsOf(script), w) && |w| > 1
    ensures w[0] in rank && w[|w| - 1] in rank && rank[w[|w| - 1]] < rank[w[0]]
    decreases |w|
  {
    hide Ranked;
    assert CallsOf(script)(w[0], w[0 + 1]);
    CallGoesDown(script, rank, w[0], w[1]);
    if |w| > 2 {
      TailIsWalk(script, w);
      CallsGoDown(script, rank, w[1..]);
    }
  }

  lemma TailIsWalk(script: Script, w: seq<Label>)
    requires IsWalk(CallsOf(script), w) && |w| > 1
    ensures IsWalk(CallsOf(script), w[1..])
  {
    hide Calls;
    SubWalk(CallsOf(script), w, 1, |w|);
    assert w[1..] == w[1..|w|];
  }

  lemma CallGoesDown(script: Script, rank: map<Label, nat>, here: Label, target: Label)
    requires Ranked(script, rank) && Calls(script, here, target)
    ensures here in rank && target in rank && rank[target] < rank[here]
  {
    var i :| 0 <= i < |script[here]| && CallTarget(script[here][i]) == Some(target);
  }

  /** Labels ranked so far call ranked ones only, each of a lower rank. */
  ghost predicate RankedSoFar(script: Script, rank: map<Label, nat>) {
    && rank.Keys <= script.Keys
    && (forall l :: l in rank ==> rank[l] < |rank|)
    && (forall l, t :: l in rank && Calls(script, l, t) ==> t in rank && rank[t] < rank[l])
  }

  lemma {:induction false} RankTheRest(script: Script, some: map<Label, nat>) returns (rank: map<Label, nat>)
    requires !Recursive(script) && RankedSoFar(script, some)
    ensures Ranked(script, rank)
    decreases |script.Keys - some.Keys|
  {
    hide Ranked, Calls, Recursive;
    if some.Keys == script.Keys {
      rank := some;
      AllRanked(script, rank);
    } else {
      var l := NextToRank(script, some);
      var more := some[l := |some|];
      OneMoreRanked(script, some, l);
      assert script.Keys - more.Keys == (script.Keys - some.Keys) - {l};
      rank := RankTheRest(script, more);
    }
  }

  lemma OneMoreRanked(script: Script, some: map<Label, nat>, l: Label)
    requires RankedSoFar(script, some) && l in script && l !in some
    requires forall t :: Calls(script, l, t) ==> t in some
    ensures RankedSoFar(script, some[l := |some|])
  {
    hide Calls;
    var more := some[l := |some|];
    assert more.Keys == some.Keys + {l};
    assert |more.Keys| == |some.Keys| + 1;
    assert |more| == |more.Keys| && |some| == |some.Keys|;
  }

  lemma AllRanked(script: Script, rank: map<Label, nat>)
    requires RankedSoFar(script, rank) && rank.Keys == script.Keys
    ensures Ranked(script, rank)
  {
    forall here, i | here in script && 0 <= i < |script[here]|
      ensures var target := CallTarget(script[here][i]);
        target.Some? && target.value in script ==> rank[target.value] < rank[here]
    {
      var target := CallTarget(script[here][i]);
      if target.Some? && target.value in script {
        assert Calls(script, here, target.value);
      }
    }
  }

  /** Were every label left to call another one left, some chain of calls would
      come round. */
  lemma NextToRank(script: Script, some: map<Label, nat>) returns (l: Label)
    requires !Recursive(script) && RankedSoFar(script, some) && some.Keys != script.Keys
    ensures l in script && l !in some && forall t :: Calls(script, l, t) ==> t in some
  {
    hide Calls, Recursive, IsWalk, StepsInto;
    var left := script.Keys - some.Keys;
    if forall a :: a in left ==> StepsInto(CallsOf(script), a, left) {
      var x := OneLeft(script, some);
      var w := NeverStuck(CallsOf(script), x, left, |left|);
      LongWalkIsRecursive(script, w, left);
      assert false;
      l := x;
    } else {
      l :| l in left && !StepsInto(CallsOf(script), l, left);
      NoStepLeft(script, l, left);
      forall t | Calls(script, l, t) ensures t in some {
        CalledIsThere(script, l, t);
      }
    }
  }

  lemma OneLeft(script: Script, some: map<Label, nat>) returns (x: Label)
    requires some.Keys <= script.Keys && some.Keys != script.Keys
    ensures x in script.Keys - some.Keys
  {
    if forall l :: l in script.Keys ==> l in some.Keys {
      assert false;
    }
    x :| x in script.Keys && x !in some.Keys;
  }

  lemma CalledIsThere(script: Script, l: Label, t: Label)
    requires Calls(script, l, t)
    ensures t in script
  {}

  lemma NoStepLeft(script: Script, l: Label, left: set<Label>)
    requires !StepsInto(CallsOf(script), l, left)
    ensures forall t :: Calls(script, l, t) ==> t !in left
  {
    hide Calls;
    forall t | Calls(script, l, t) ensures t !in left {
      assert CallsOf(script)(l, t);
    }
  }

  lemma LongWalkIsRecursive(script: Script, w: seq<Label>, left: set<Label>)
    requires IsWalk(CallsOf(script), w) && |w| > |left| && forall y :: y in w ==> y in left
    ensures Recursive(script)
  {
    hide IsWalk, Calls;
    if !ComesRound(w) {
      DistinctFit(w, left);
      assert false;
    } else {
      var i, j :| 0 <= i < j < |w| && w[i] == w[j];
      SubWalk(CallsOf(script), w, i, j + 1);
      var v := w[i..j + 1];
      assert IsWalk(CallsOf(script), v) && |v| > 1 && v[0] == v[|v| - 1];
    }
  }

  // ---- What is left to do ----

  /** Commands from `i` on, with the calls inlined. */
  function Size(script: Script, rank: map<Label, nat>, here: Label, i: nat): nat
    requires Ranked(script, rank) && here in script
    decreases rank[here], |script[here]| - i
  {
    if i >= |script[here]| then 0
    else
      var target := CallTarget(script[here][i]);
      2 + (if target.Some? && target.value in script then Size(script, rank, target.value, 0) else 0)
        + Size(script, rank, here, i + 1)
  }

  predicate StackIn(script: Script, stack: seq<Frame>) {
    forall k :: 0 <= k < |stack| ==> stack[k].at in script
  }

  function StackSize(script: Script, rank: map<Label, nat>, stack: seq<Frame>): nat
    requires Ranked(script, rank) && StackIn(script, stack)
    decreases |stack|
  {
    if stack == [] then 0
    else
      var top := stack[|stack| - 1];
      1 + Size(script, rank, top.at, top.i) + StackSize(script, rank, stack[..|stack| - 1])
  }

  /** What is left to do before the next goto: the rest of this label and of
      the callers on the stack, calls inlined. */
  function Work(script: Script, rank: map<Label, nat>, here: Label, i: nat, stack: seq<Frame>): nat
    requires Ranked(script, rank) && here in script && StackIn(script, stack)
  {
    Size(script, rank, here, i) + StackSize(script, rank, stack)
  }

  function Unvisited(script: Script, trail: set<Label>): nat { |script.Keys - trail| }

  lemma JumpUsesUpALabel(script: Script, trail: set<Label>, target: Label)
    requires target in script && target !in trail
    ensures Unvisited(script, trail + {target}) < Unvisited(script, trail)
  {
    var rest := script.Keys - trail;
    assert script.Keys - (trail + {target}) == rest - {target};
    assert target in rest;
  }

  lemma CallWork(script: Script, rank: map<Label, nat>, here: Label, i: nat, stack: seq<Frame>, target: Label)
    requires Ranked(script, rank) && here in script && StackIn(script, stack) && i < |script[here]|
    requires CallTarget(script[here][i]) == Some(target) && target in script
    ensures StackIn(script, stack + [Frame(here, i + 1)])
    ensures Work(script, rank, target, 0, stack + [Frame(here, i + 1)]) < Work(script, rank, here, i, stack)
  {
    var pushed := stack + [Frame(here, i + 1)];
    assert pushed[..|pushed| - 1] == stack;
  }

  lemma NextWork(script: Script, rank: map<Label, nat>, here: Label, i: nat, stack: seq<Frame>)
    requires Ranked(script, rank) && here in script && StackIn(script, stack) && i < |script[here]|
    ensures Work(script, rank, here, i + 1, stack) < Work(script, rank, here, i, stack)
  {}

  lemma ReturnWork(script: Script, rank: map<Label, nat>, here: Label, i: nat, stack: seq<Frame>)
    requires Ranked(script, rank) && here in script && StackIn(script, stack) && stack != []
    ensures var top := stack[|stack| - 1];
            && top.at in script && StackIn(script, stack[..|stack| - 1])
            && Work(script, rank, top.at, top.i, stack[..|stack| - 1]) < Work(script, rank, here, i, stack)
  {}

  // ---- The enumeration ----

  /** Every path from command `i` of `label` on, in the compiler's order. It is
      well defined for every script without call cycles: each goto uses up a
      label of the trail, and between gotos the inlined work shrinks. */
  ghost function Paths(script: Script, rank: map<Label, nat>, here: Label, i: nat, st: PathState): seq<Path>
    requires Ranked(script, rank) && here in script && StackIn(script, st.stack)
    decreases Unvisited(script, st.trail), Work(script, rank, here, i, st.stack), 0
  {
    if i >= |script[here]| then [Finish(st)]
    else
      NextWork(script, rank, here, i, st.stack);
      var cmd := script[here][i];
      if IsPlain(cmd) then Paths(script, rank, here, i + 1, Plain(cmd, st))
      else if cmd.End? then [Finish(st)]
      else if cmd.Return? then
        if st.stack == [] then [Finish(st)]
        else
          ReturnWork(script, rank, here, i, st.stack);
          var top := st.stack[|st.stack| - 1];
          Paths(script, rank, top.at, top.i, st.(stack := st.stack[..|st.stack| - 1]))
      else if cmd.Goto? || cmd.Call? then Enter(script, rank, here, i, st)
      else
        var noted := Noted(cmd, st);
        match Decide(Tested(cmd, st), st)
        case Fork(c) =>
          Enter(script, rank, here, i, Assume(noted, c))
            + Paths(script, rank, here, i + 1, Assume(noted, Negate(c)))
        case Both => Enter(script, rank, here, i, noted) + Paths(script, rank, here, i + 1, noted)
        case Take => Enter(script, rank, here, i, noted)
        case Skip => Paths(script, rank, here, i + 1, noted)
  }

  function Target(cmd: Cmd): Label
    requires cmd.Goto? || cmd.Call? || IsBranch(cmd)
  {
    cmd.target
  }

  predicate IsCall(cmd: Cmd) { CallTarget(cmd).Some? }

  /** Taking the jump or the call of command `i`. */
  ghost function Enter(script: Script, rank: map<Label, nat>, here: Label, i: nat, st: PathState): seq<Path>
    requires Ranked(script, rank) && here in script && StackIn(script, st.stack)
    requires i < |script[here]|
    requires var cmd := script[here][i]; cmd.Goto? || cmd.Call? || IsBranch(cmd)
    decreases Unvisited(script, st.trail), Work(script, rank, here, i, st.stack), -1
  {
    var cmd := script[here][i];
    var target := Target(cmd);
    if target !in script then [Finish(Missing(st, cmd))]
    else if IsCall(cmd) then
      CallWork(script, rank, here, i, st.stack, target);
      Paths(script, rank, target, 0, st.(stack := st.stack + [Frame(here, i + 1)]))
    else if target in st.trail then [Finish(st)]
    else
      JumpUsesUpALabel(script, st.trail, target);
      Paths(script, rank, target, 0, st.(trail := st.trail + {target}))
  }

  lemma {:induction false} PathsNonEmpty(script: Script, rank: map<Label, nat>, here: Label, i: nat, st: PathState)
    requires Ranked(script, rank) && here in script && StackIn(script, st.stack)
    ensures Paths(script, rank, here, i, st) != []
    decreases Unvisited(script, st.trail), Work(script, rank, here, i, st.stack), 0
  {
    hide Ranked, Work, Unvisited, Decide, Plain;
    if i < |script[here]| {
      var cmd := script[here][i];
      NextWork(script, rank, here, i, st.stack);
      if IsPlain(cmd) {
        PlainKeeps(cmd, st);
        PathsNonEmpty(script, rank, here, i + 1, Plain(cmd, st));
      } else if cmd.Return? {
        if st.stack != [] {
          ReturnWork(script, rank, here, i, st.stack);
          var top := st.stack[|st.stack| - 1];
          PathsNonEmpty(script, rank, top.at, top.i, st.(stack := st.stack[..|st.stack| - 1]));
        }
      } else if !cmd.End? {
        var noted := if IsBranch(cmd) then Noted(cmd, st) else st;
        EnterNonEmpty(script, rank, here, i, noted);
        if IsBranch(cmd) {
          match Decide(Tested(cmd, st), st)
          case Fork(c) => EnterNonEmpty(script, rank, here, i, Assume(noted, c));
          case Both =>
          case Take =>
          case Skip => PathsNonEmpty(script, rank, here, i + 1, noted);
        }
      }
    }
  }

  lemma PlainKeeps(cmd: Cmd, st: PathState)
    requires IsPlain(cmd)
    ensures Plain(cmd, st).trail == st.trail && Plain(cmd, st).stack == st.stack
    ensures Plain(cmd, st).when_ == st.when_ && Plain(cmd, st).opaque_ == st.opaque_
  {}

  lemma {:induction false} EnterNonEmpty(script: Script, rank: map<Label, nat>, here: Label, i: nat, st: PathState)
    requires Ranked(script, rank) && here in script && StackIn(script, st.stack)
    requires i < |script[here]|
    requires var cmd := script[here][i]; cmd.Goto? || cmd.Call? || IsBranch(cmd)
    ensures Enter(script, rank, here, i, st) != []
    decreases Unvisited(script, st.trail), Work(script, rank, here, i, st.stack), -1
  {
    hide Ranked, Work, Unvisited;
    var cmd := script[here][i];
    var target := Target(cmd);
    if target in script {
      if IsCall(cmd) {
        CallWork(script, rank, here, i, st.stack, target);
        PathsNonEmpty(script, rank, target, 0, st.(stack := st.stack + [Frame(here, i + 1)]));
      } else if target !in st.trail {
        JumpUsesUpALabel(script, st.trail, target);
        PathsNonEmpty(script, rank, target, 0, st.(trail := st.trail + {target}));
      }
    }
  }

  // ---- The compiler ----

  function Capped(full: seq<Path>): seq<Path> {
    if |full| <= MAX_PATHS then full else full[..MAX_PATHS]
  }

  /** The list, its cap and its mark after `more` paths were produced. */
  predicate Produced(before: seq<Path>, wasCut: bool, more: seq<Path>, after: seq<Path>, cut: bool) {
    && after == Capped(before + more)
    && (cut <==> wasCut || |before + more| > MAX_PATHS)
  }

  lemma ProducedTwice(p0: seq<Path>, t0: bool, x: seq<Path>, p1: seq<Path>, t1: bool, y: seq<Path>, p2: seq<Path>,
      t2: bool)
    requires Produced(p0, t0, x, p1, t1) && Produced(p1, t1, y, p2, t2)
    ensures Produced(p0, t0, x + y, p2, t2)
  {
    ConcatAssociative(p0, x, y);
    if |p0 + x| > MAX_PATHS {
      assert ((p0 + x)[..MAX_PATHS] + y)[..MAX_PATHS] == ((p0 + x) + y)[..MAX_PATHS];
    }
  }

  class Compiler {
    const script: Script
    var paths: seq<Path>
    var truncated: bool

    constructor (script: Script)
      ensures this.script == script && paths == [] && !truncated
    {
      this.script := script;
      paths := [];
      truncated := false;
    }

    predicate Valid()
      reads this
    {
      |paths| <= MAX_PATHS && (truncated ==> |paths| == MAX_PATHS)
    }

    /** Every path of the entry label, or the first 512 and the mark. */
    method Compile(ghost rank: map<Label, nat>, entry: Label) returns (missing: bool)
      requires Ranked(script, rank)
      modifies this
      ensures missing <==> entry !in script
      ensures missing ==> paths == [] && !truncated
      ensures !missing ==> Produced([], false, Paths(script, rank, entry, 0, Start(entry)), paths, truncated)
    {
      paths := [];
      truncated := false;
      if entry !in script {
        return true;
      }
      Run(rank, entry, 0, Start(entry));
      return false;
    }

    method Emit(st: PathState)
      requires Valid()
      modifies this
      ensures Valid()
      ensures Produced(old(paths), old(truncated), [Finish(st)], paths, truncated)
    {
      if |paths| < MAX_PATHS {
        paths := paths + [Finish(st)];
      } else {
        truncated := true;
      }
    }

    method Run(ghost rank: map<Label, nat>, here: Label, start: nat, begun: PathState)
      requires Valid() && Ranked(script, rank) && here in script && StackIn(script, begun.stack)
      modifies this
      ensures Valid()
      ensures Produced(old(paths), old(truncated), Paths(script, rank, here, start, begun), paths, truncated)
      decreases Unvisited(script, begun.trail), Work(script, rank, here, start, begun.stack), 2
    {
      hide Ranked, Work, Unvisited, Decide, Plain, Produced, Finish, Tested, Noted;
      ghost var all := Paths(script, rank, here, start, begun);
      if truncated || |paths| >= MAX_PATHS {
        PathsNonEmpty(script, rank, here, start, begun);
        FullAlready(paths, truncated, all);
        truncated := true;
        return;
      }
      var i, st := start, begun;
      ghost var done: seq<Path> := [];
      NothingProduced(paths, truncated);
      ConcatEmpty(all);
      while i < |script[here]|
        invariant Valid() && start <= i
        invariant st.trail == begun.trail && st.stack == begun.stack
        invariant i == start || Work(script, rank, here, i, st.stack) < Work(script, rank, here, start, begun.stack)
        invariant done + Paths(script, rank, here, i, st) == all
        invariant Produced(old(paths), old(truncated), done, paths, truncated)
        decreases |script[here]| - i
      {
        var cmd := script[here][i];
        NextWork(script, rank, here, i, st.stack);
        if IsPlain(cmd) {
          PlainKeeps(cmd, st);
          st := Plain(cmd, st);
          i := i + 1;
          continue;
        }
        ghost var p1, t1, rest := paths, truncated, Paths(script, rank, here, i, st);
        if cmd.End? {
          Emit(st);
          ProducedTwice(old(paths), old(truncated), done, p1, t1, rest, paths, truncated);
          return;
        }
        if cmd.Return? {
          Ret(rank, here, i, st);
          ProducedTwice(old(paths), old(truncated), done, p1, t1, rest, paths, truncated);
          return;
        }
        if cmd.Goto? || cmd.Call? {
          Follow(rank, here, i, st);
          ProducedTwice(old(paths), old(truncated), done, p1, t1, rest, paths, truncated);
          return;
        }
        ghost var more: seq<Path>;
        var next, dead;
        next, dead, more := Branch(rank, here, i, st);
        ProducedTwice(old(paths), old(truncated), done, p1, t1, more, paths, truncated);
        if dead {
          return;
        }
        ConcatAssociative(done, more, Paths(script, rank, here, i + 1, next));
        done := done + more;
        st := next;
        i := i + 1;
      }
      ghost var p1, t1 := paths, truncated;
      Emit(st);
      ProducedTwice(old(paths), old(truncated), done, p1, t1, [Finish(st)], paths, truncated);
    }

    method Ret(ghost rank: map<Label, nat>, ghost here: Label, ghost i: nat, st: PathState)
      requires Valid() && Ranked(script, rank) && here in script && StackIn(script, st.stack)
      requires i < |script[here]| && script[here][i].Return?
      modifies this
      ensures Valid()
      ensures Produced(old(paths), old(truncated), Paths(script, rank, here, i, st), paths, truncated)
      decreases Unvisited(script, st.trail), Work(script, rank, here, i, st.stack), 0
    {
      hide Ranked, Work, Unvisited, Decide, Plain, Produced, Finish;
      if st.stack == [] {
        Emit(st);
        return;
      }
      ReturnWork(script, rank, here, i, st.stack);
      var top := st.stack[|st.stack| - 1];
      Run(rank, top.at, top.i, st.(stack := st.stack[..|st.stack| - 1]));
    }

    /** `jump` and `enter`: the target's paths, or this one ends here. */
    method Follow(ghost rank: map<Label, nat>, here: Label, i: nat, st: PathState)
      requires Valid() && Ranked(script, rank) && here in script && StackIn(script, st.stack)
      requires i < |script[here]|
      requires var cmd := script[here][i]; cmd.Goto? || cmd.Call? || IsBranch(cmd)
      modifies this
      ensures Valid()
      ensures Produced(old(paths), old(truncated), Enter(script, rank, here, i, st), paths, truncated)
      decreases Unvisited(script, st.trail), Work(script, rank, here, i, st.stack), 0
    {
      hide Ranked, Work, Unvisited, Decide, Plain, Produced, Finish;
      var cmd := script[here][i];
      var target := Target(cmd);
      if target !in script {
        Emit(Missing(st, cmd));
      } else if IsCall(cmd) {
        CallWork(script, rank, here, i, st.stack, target);
        Run(rank, target, 0, st.(stack := st.stack + [Frame(here, i + 1)]));
      } else if target in st.trail {
        Emit(st);
      } else {
        JumpUsesUpALabel(script, st.trail, target);
        Run(rank, target, 0, st.(trail := st.trail + {target}));
      }
    }

    /** Explores the taken branch first; `next` is the state the caller goes on
        with, unless only the taken branch exists. */
    method Branch(ghost rank: map<Label, nat>, here: Label, i: nat, st: PathState)
      returns (next: PathState, dead: bool, ghost more: seq<Path>)
      requires Valid() && Ranked(script, rank) && here in script && StackIn(script, st.stack)
      requires i < |script[here]| && IsBranch(script[here][i])
      modifies this
      ensures Valid()
      ensures Produced(old(paths), old(truncated), more, paths, truncated)
      ensures next.trail == st.trail && next.stack == st.stack
      ensures if dead then more == Paths(script, rank, here, i, st)
              else more + Paths(script, rank, here, i + 1, next) == Paths(script, rank, here, i, st)
      decreases Unvisited(script, st.trail), Work(script, rank, here, i, st.stack), 1
    {
      hide Ranked, Work, Unvisited, Plain, Produced, Finish, Consistent, StaticEval;
      var cmd := script[here][i];
      var tested := Tested(cmd, st);
      next, dead := Noted(cmd, st), false;
      if tested.None? {
        Follow(rank, here, i, next);
        more := Enter(script, rank, here, i, next);
        return;
      }
      var c := tested.value;
      var decided := StaticEval(c, st.env, st.flags);
      if decided.None? {
        var possible := CheckConsistent(st.when_, c);
        var avoidable := CheckConsistent(st.when_, Negate(c));
        decided := if !possible then Some(false) else if !avoidable then Some(true) else None;
      }
      if decided == Some(false) {
        more := [];
        NothingProduced(paths, truncated);
        ConcatEmpty(Paths(script, rank, here, i, st));
        return;
      }
      if decided == Some(true) {
        Follow(rank, here, i, next);
        more := Enter(script, rank, here, i, next);
        dead := true;
        return;
      }
      var taken := Assume(next, c);
      Follow(rank, here, i, taken);
      more := Enter(script, rank, here, i, taken);
      next := Assume(next, Negate(c));
    }
  }

  function Start(entry: Label): PathState {
    PathState([], [], [], map[], Nothing, {entry}, [], map[])
  }

  lemma NothingProduced(paths: seq<Path>, truncated: bool)
    requires |paths| <= MAX_PATHS
    ensures Produced(paths, truncated, [], paths, truncated)
  {
    ConcatEmpty(paths);
  }

  lemma FullAlready(paths: seq<Path>, truncated: bool, more: seq<Path>)
    requires |paths| == MAX_PATHS && more != []
    ensures Produced(paths, truncated, more, paths, true)
  {
    assert (paths + more)[..MAX_PATHS] == paths;
  }
}
