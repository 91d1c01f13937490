/** What can be obtained on one console, and why the rest cannot: two fixed
    points computed in place, in whatever order the table lists species. */
module Obtain {
  import opened Walks

  /** Species by name; names are only compared. */
  type Species = nat

  datatype Kind = Trade(give: Species) | Evolve(form: Species) | Breed(babyOf: seq<Species>) | Plain

  datatype Method = Method(kind: Kind, needsLink: bool, eventOnly: bool)

  datatype Entry = Entry(species: Species, methods: seq<Method>)

  type Table = seq<Entry>

  /** Any of which, had already, lets the method be used. */
  function Sources(k: Kind): seq<Species> {
    match k
    case Trade(give) => [give]
    case Evolve(form) => [form]
    case Breed(babyOf) => babyOf
    case Plain => []
  }

  predicate Usable(m: Method, obtainable: set<Species>) {
    if m.needsLink || m.eventOnly then false
    else
      match m.kind
      case Trade(give) => give in obtainable
      case Evolve(form) => form in obtainable
      case Breed(babyOf) => exists i :: 0 <= i < |babyOf| && babyOf[i] in obtainable
      case Plain => true
  }

  predicate AnyUsable(ms: seq<Method>, obtainable: set<Species>) {
    exists j :: 0 <= j < |ms| && Usable(ms[j], obtainable)
  }

  // ---- Derivations ----

  /** `s` has a derivation of at most `n` steps. */
  ghost predicate Derivable(table: Table, s: Species, n: nat)
    decreases n, 0
  {
    n > 0 && exists i, j :: 0 <= i < |table| && 0 <= j < |table[i].methods| && table[i].species == s
                          && Grants(table, table[i].methods[j], n - 1)
  }

  ghost predicate Grants(table: Table, m: Method, n: nat)
    decreases n, 1
  {
    && !m.needsLink && !m.eventOnly
    && (m.kind.Plain? || exists k :: 0 <= k < |Sources(m.kind)| && Derivable(table, Sources(m.kind)[k], n))
  }

  ghost predicate Obtainable(table: Table, s: Species) {
    exists n: nat :: Derivable(table, s, n)
  }

  lemma UsableIsBySource(m: Method, obtainable: set<Species>)
    ensures Usable(m, obtainable) <==>
      !m.needsLink && !m.eventOnly
      && (m.kind.Plain? || exists k :: 0 <= k < |Sources(m.kind)| && Sources(m.kind)[k] in obtainable)
  {
    match m.kind
    case Trade(give) => assert Sources(m.kind)[0] == give;
    case Evolve(form) => assert Sources(m.kind)[0] == form;
    case Breed(babyOf) =>
      assert Sources(m.kind) == babyOf;
      if i :| 0 <= i < |babyOf| && babyOf[i] in obtainable { assert Sources(m.kind)[i] in obtainable; }
      if k :| 0 <= k < |Sources(m.kind)| && Sources(m.kind)[k] in obtainable { assert babyOf[k] in obtainable; }
    case Plain =>
  }

  ghost predicate Sound(table: Table, obtainable: set<Species>) {
    forall s :: s in obtainable ==> Obtainable(table, s)
  }

  /** A species with a method usable from what is obtainable is obtainable. */
  lemma UsableIsObtainable(table: Table, i: nat, obtainable: set<Species>)
    requires i < |table| && Sound(table, obtainable) && AnyUsable(table[i].methods, obtainable)
    ensures Obtainable(table, table[i].species)
  {
    var ms := table[i].methods;
    var j :| 0 <= j < |ms| && Usable(ms[j], obtainable);
    var m := ms[j];
    UsableIsBySource(m, obtainable);
    if m.kind.Plain? {
      assert Grants(table, m, 0);
      assert Derivable(table, table[i].species, 1);
    } else {
      var k :| 0 <= k < |Sources(m.kind)| && Sources(m.kind)[k] in obtainable;
      assert Obtainable(table, Sources(m.kind)[k]);
      var n: nat :| Derivable(table, Sources(m.kind)[k], n);
      assert Grants(table, m, n);
      assert Derivable(table, table[i].species, n + 1);
    }
  }

  /** Nothing more can be added. */
  ghost predicate Closed(table: Table, obtainable: set<Species>) {
    forall i :: 0 <= i < |table| ==> table[i].species in obtainable || !AnyUsable(table[i].methods, obtainable)
  }

  /** A closed set holds everything with a finite derivation: it is the least
      fixed point when it holds nothing else. */
  lemma {:induction false} ClosedHasAll(table: Table, obtainable: set<Species>, s: Species, n: nat)
    requires Closed(table, obtainable) && Derivable(table, s, n)
    ensures s in obtainable
    decreases n
  {
    hide Usable;
    var i, j :| 0 <= i < |table| && 0 <= j < |table[i].methods| && table[i].species == s
             && Grants(table, table[i].methods[j], n - 1);
    var m := table[i].methods[j];
    UsableIsBySource(m, obtainable);
    if !m.kind.Plain? {
      var k :| 0 <= k < |Sources(m.kind)| && Derivable(table, Sources(m.kind)[k], n - 1);
      ClosedHasAll(table, obtainable, Sources(m.kind)[k], n - 1);
    }
    assert Usable(m, obtainable);
  }

  function SpeciesOf(table: Table): set<Species> {
    set i | 0 <= i < |table| :: table[i].species
  }

  /** The loop over the table until nothing changes: it stops, with exactly the
      species that have a finite derivation. */
  method ComputeObtainable(table: Table) returns (obtainable: set<Species>)
    ensures forall s :: s in obtainable <==> Obtainable(table, s)
  {
    hide AnyUsable, Obtainable;
    obtainable := {};
    var changed := true;
    while changed
      invariant obtainable <= SpeciesOf(table) && Sound(table, obtainable)
      invariant !changed ==> Closed(table, obtainable)
      decreases |SpeciesOf(table) - obtainable|, changed
    {
      changed := false;
      ghost var before := obtainable;
      for i := 0 to |table|
        invariant before <= obtainable <= SpeciesOf(table) && Sound(table, obtainable)
        invariant changed <==> before != obtainable
        invariant !changed ==> forall k :: 0 <= k < i ==>
          table[k].species in obtainable || !AnyUsable(table[k].methods, obtainable)
      {
        if table[i].species !in obtainable && AnyUsable(table[i].methods, obtainable) {
          UsableIsObtainable(table, i, obtainable);
          obtainable := obtainable + {table[i].species};
          changed := true;
        }
      }
      if changed {
        MissingShrinks(SpeciesOf(table), before, obtainable);
      }
    }
    forall s | Obtainable(table, s) ensures s in obtainable {
      ObtainableIsIn(table, obtainable, s);
    }
  }

  lemma ObtainableIsIn(table: Table, obtainable: set<Species>, s: Species)
    requires Closed(table, obtainable) && Obtainable(table, s)
    ensures s in obtainable
  {
    hide Closed, Derivable;
    var n: nat :| Derivable(table, s, n);
    ClosedHasAll(table, obtainable, s, n);
  }

  lemma MissingShrinks<T>(all: set<T>, before: set<T>, after: set<T>)
    requires before <= after <= all && before != after
    ensures |all - after| < |all - before|
  {
    var x :| x in after && x !in before;
    assert all - after <= all - before - {x};
    SubsetIsSmaller(all - after, all - before - {x});
  }

  lemma {:induction false} SubsetIsSmaller<T>(a: set<T>, b: set<T>)
    requires a <= b
    ensures |a| <= |b|
    decreases |a|
  {
    if a != {} {
      var x :| x in a;
      SubsetIsSmaller(a - {x}, b - {x});
    }
  }

  predicate SameEntries(table: Table, other: Table) {
    && (forall i :: 0 <= i < |table| ==> table[i] in other)
    && (forall i :: 0 <= i < |other| ==> other[i] in table)
  }

  /** The order of the table does not matter. */
  lemma {:induction false} OrderDoesNotMatter(table: Table, other: Table, s: Species, n: nat)
    requires SameEntries(table, other) && Derivable(table, s, n)
    ensures Derivable(other, s, n)
    decreases n
  {
    var i, j :| 0 <= i < |table| && 0 <= j < |table[i].methods| && table[i].species == s
             && Grants(table, table[i].methods[j], n - 1);
    var m := table[i].methods[j];
    if !m.kind.Plain? {
      var k :| 0 <= k < |Sources(m.kind)| && Derivable(table, Sources(m.kind)[k], n - 1);
      OrderDoesNotMatter(table, other, Sources(m.kind)[k], n - 1);
    }
    assert Grants(other, m, n - 1);
    var i' :| 0 <= i' < |other| && other[i'] == table[i];
    assert other[i'].methods[j] == m;
  }

  /** Two orders of one table give one answer. */
  lemma SameAnswer(table: Table, other: Table, s: Species)
    requires SameEntries(table, other)
    ensures Obtainable(table, s) <==> Obtainable(other, s)
  {
    hide Derivable;
    if Obtainable(table, s) {
      var n: nat :| Derivable(table, s, n);
      OrderDoesNotMatter(table, other, s, n);
    }
    if Obtainable(other, s) {
      var n: nat :| Derivable(other, s, n);
      OrderDoesNotMatter(other, table, s, n);
    }
  }

  // ---- Why not ----

  datatype Reason = OtherVersion | EventOnly | NeedsLink

  const ALL_REASONS: set<Reason> := {OtherVersion, EventOnly, NeedsLink}

  type Reasons = map<Species, set<Reason>>

  function ReasonsOf(reasons: Reasons, s: Species): set<Reason> {
    if s in reasons then reasons[s] else {}
  }

  /** What is known of a species before its methods are looked at. */
  function Known(s: Species, otherVersion: set<Species>, eventOnly: set<Species>): set<Reason> {
    (if s in otherVersion then {OtherVersion} else {}) + (if s in eventOnly then {EventOnly} else {})
  }

  /** What a method adds, given the reasons so far. */
  function Adds(m: Method, reasons: Reasons): set<Reason> {
    if m.eventOnly then {EventOnly}
    else if m.needsLink then {NeedsLink}
    else set k, r | 0 <= k < |Sources(m.kind)| && r in ReasonsOf(reasons, Sources(m.kind)[k]) :: r
  }

  function AddsAll(ms: seq<Method>, reasons: Reasons): set<Reason>
    decreases |ms|
  {
    if ms == [] then {} else AddsAll(ms[..|ms| - 1], reasons) + Adds(ms[|ms| - 1], reasons)
  }

  /** The facts the loop reads. */
  datatype Facts = Facts(table: Table, obtainable: set<Species>, otherVersion: set<Species>, eventOnly: set<Species>)

  predicate Unobtainable(f: Facts, s: Species) { s !in f.obtainable && s in SpeciesOf(f.table) }

  /** `r` explains `s` in at most `n` steps: it is known of it, one of its
      methods has it, or one of its methods needs a species it explains. */
  ghost predicate Explains(f: Facts, s: Species, r: Reason, n: nat)
    decreases n
  {
    Unobtainable(f, s) && (
      || r in Known(s, f.otherVersion, f.eventOnly)
      || exists i, j :: 0 <= i < |f.table| && 0 <= j < |f.table[i].methods| && f.table[i].species == s
           && var m := f.table[i].methods[j];
              if m.eventOnly then r == EventOnly
              else if m.needsLink then r == NeedsLink
              else n > 0 && exists k :: 0 <= k < |Sources(m.kind)| && Explains(f, Sources(m.kind)[k], r, n - 1))
  }

  ghost predicate Explained(f: Facts, s: Species, r: Reason) {
    exists n: nat :: Explains(f, s, r, n)
  }

  ghost predicate Keyed(f: Facts, reasons: Reasons) {
    && (forall s :: s in reasons <==> Unobtainable(f, s))
    && (forall s :: s in reasons ==> Known(s, f.otherVersion, f.eventOnly) <= reasons[s])
  }

  ghost predicate SoundReasons(f: Facts, reasons: Reasons) {
    forall s, r :: s in reasons && r in reasons[s] ==> Explained(f, s, r)
  }

  ghost predicate ClosedReasons(f: Facts, reasons: Reasons) {
    forall i :: 0 <= i < |f.table| && f.table[i].species in reasons ==>
      AddsAll(f.table[i].methods, reasons) <= reasons[f.table[i].species]
  }

  lemma {:induction false} AddsAllHas(ms: seq<Method>, reasons: Reasons, j: nat)
    requires j < |ms|
    ensures Adds(ms[j], reasons) <= AddsAll(ms, reasons)
    decreases |ms|
  {
    if j < |ms| - 1 {
      AddsAllHas(ms[..|ms| - 1], reasons, j);
    }
  }

  lemma {:induction false} AddedByOne(ms: seq<Method>, reasons: Reasons, r: Reason) returns (j: nat)
    requires r in AddsAll(ms, reasons)
    ensures j < |ms| && r in Adds(ms[j], reasons)
    decreases |ms|
  {
    hide Adds;
    if r in Adds(ms[|ms| - 1], reasons) {
      j := |ms| - 1;
    } else {
      j := AddedByOne(ms[..|ms| - 1], reasons, r);
    }
  }

  lemma AddsAllIsSound(f: Facts, reasons: Reasons, i: nat, r: Reason)
    requires i < |f.table| && Keyed(f, reasons) && SoundReasons(f, reasons) && f.table[i].species in reasons
    requires r in AddsAll(f.table[i].methods, reasons)
    ensures Explained(f, f.table[i].species, r)
  {
    hide AddsAll;
    var j := AddedByOne(f.table[i].methods, reasons, r);
    var m, s := f.table[i].methods[j], f.table[i].species;
    if m.eventOnly || m.needsLink {
      assert Explains(f, s, r, 0);
    } else {
      var k :| 0 <= k < |Sources(m.kind)| && r in ReasonsOf(reasons, Sources(m.kind)[k]);
      assert Explained(f, Sources(m.kind)[k], r);
      var n: nat :| Explains(f, Sources(m.kind)[k], r, n);
      assert Explains(f, s, r, n + 1);
    }
  }

  /** Reasons that no pass adds to hold every explanation. */
  lemma {:induction false} ClosedExplainsAll(f: Facts, reasons: Reasons, s: Species, r: Reason, n: nat)
    requires Keyed(f, reasons) && ClosedReasons(f, reasons) && Explains(f, s, r, n)
    ensures s in reasons && r in reasons[s]
    decreases n
  {
    hide AddsAll, Sources;
    if r !in Known(s, f.otherVersion, f.eventOnly) {
      var i, j :| 0 <= i < |f.table| && 0 <= j < |f.table[i].methods| && f.table[i].species == s
               && var m := f.table[i].methods[j];
                  if m.eventOnly then r == EventOnly
                  else if m.needsLink then r == NeedsLink
                  else n > 0 && exists k :: 0 <= k < |Sources(m.kind)| && Explains(f, Sources(m.kind)[k], r, n - 1);
      var m := f.table[i].methods[j];
      AddsAllHas(f.table[i].methods, reasons, j);
      if !m.eventOnly && !m.needsLink {
        var k :| 0 <= k < |Sources(m.kind)| && Explains(f, Sources(m.kind)[k], r, n - 1);
        ClosedExplainsAll(f, reasons, Sources(m.kind)[k], r, n - 1);
        AddsFromSource(m, reasons, k, r);
      }
    }
  }

  lemma AddsFromSource(m: Method, reasons: Reasons, k: nat, r: Reason)
    requires !m.eventOnly && !m.needsLink && k < |Sources(m.kind)| && r in ReasonsOf(reasons, Sources(m.kind)[k])
    ensures r in Adds(m, reasons)
  {}

  /** One species' turn: its methods are read one by one, each adding to its
      reasons at once. A species that is its own source adds nothing new. */
  method Gather(reasons: Reasons, s: Species, ms: seq<Method>) returns (r: Reasons)
    requires s in reasons
    ensures r == reasons[s := reasons[s] + AddsAll(ms, reasons)]
  {
    hide Adds;
    r := reasons;
    assert AddsAll([], reasons) == {} && reasons[s := reasons[s]] == reasons;
    assert reasons[s] + {} == reasons[s];
    assert ms[..0] == [];
    for j := 0 to |ms|
      invariant r == reasons[s := reasons[s] + AddsAll(ms[..j], reasons)]
    {
      OwnReasonsAddNothing(reasons, s, AddsAll(ms[..j], reasons), ms[j]);
      assert ms[..j + 1][..j] == ms[..j];
      r := r[s := r[s] + Adds(ms[j], r)];
    }
    assert ms[..|ms|] == ms;
  }

  lemma OwnReasonsAddNothing(reasons: Reasons, s: Species, more: set<Reason>, m: Method)
    requires s in reasons
    ensures var r := reasons[s := reasons[s] + more];
      r[s] + Adds(m, r) == reasons[s] + (more + Adds(m, reasons))
  {
    var r := reasons[s := reasons[s] + more];
    forall x | x in Adds(m, r) ensures x in reasons[s] + more + Adds(m, reasons) {
      if !m.eventOnly && !m.needsLink {
        var k :| 0 <= k < |Sources(m.kind)| && x in ReasonsOf(r, Sources(m.kind)[k]);
        if Sources(m.kind)[k] != s { assert x in ReasonsOf(reasons, Sources(m.kind)[k]); }
      }
    }
    forall x | x in Adds(m, reasons) ensures x in Adds(m, r) {
      if !m.eventOnly && !m.needsLink {
        var k :| 0 <= k < |Sources(m.kind)| && x in ReasonsOf(reasons, Sources(m.kind)[k]);
        assert x in ReasonsOf(r, Sources(m.kind)[k]);
      }
    }
  }

  /** The pairs still missing, which every pass that changes something shrinks. */
  function Missing(f: Facts, reasons: Reasons): set<(Species, Reason)> {
    set s, r | s in SpeciesOf(f.table) && r in ALL_REASONS && r !in ReasonsOf(reasons, s) :: (s, r)
  }

  ghost predicate Grew(before: Reasons, after: Reasons) {
    before.Keys == after.Keys && forall s :: s in before ==> before[s] <= after[s]
  }

  lemma GrewShrinksMissing(f: Facts, before: Reasons, after: Reasons)
    requires Keyed(f, before) && Grew(before, after) && before != after
    ensures |Missing(f, after)| < |Missing(f, before)|
  {
    var s :| s in before && before[s] != after[s];
    var r :| r in after[s] && r !in before[s];
    assert r in ALL_REASONS by { EveryReason(r); }
    assert (s, r) in Missing(f, before) && (s, r) !in Missing(f, after);
    assert Missing(f, after) <= Missing(f, before) - {(s, r)};
    SubsetIsSmaller(Missing(f, after), Missing(f, before) - {(s, r)});
  }

  lemma EveryReason(r: Reason)
    ensures r in ALL_REASONS
  {}

  method Initial(f: Facts) returns (reasons: Reasons)
    ensures Keyed(f, reasons) && forall s :: s in reasons ==> reasons[s] == Known(s, f.otherVersion, f.eventOnly)
  {
    reasons := map[];
    for i := 0 to |f.table|
      invariant forall s :: s in reasons <==> s !in f.obtainable && exists k :: 0 <= k < i && f.table[k].species == s
      invariant forall s :: s in reasons ==> reasons[s] == Known(s, f.otherVersion, f.eventOnly)
    {
      var s := f.table[i].species;
      if s !in f.obtainable {
        reasons := reasons[s := {}];
        if s in f.otherVersion {
          reasons := reasons[s := reasons[s] + {OtherVersion}];
        }
        if s in f.eventOnly {
          reasons := reasons[s := reasons[s] + {EventOnly}];
        }
      }
    }
  }

  lemma InitialIsSound(f: Facts, reasons: Reasons)
    requires Keyed(f, reasons) && forall s :: s in reasons ==> reasons[s] == Known(s, f.otherVersion, f.eventOnly)
    ensures SoundReasons(f, reasons)
  {
    forall s, r | s in reasons && r in reasons[s] ensures Explained(f, s, r) {
      assert Explains(f, s, r, 0);
    }
  }

  lemma GatheredKeeps(f: Facts, reasons: Reasons, i: nat)
    requires i < |f.table| && Keyed(f, reasons) && SoundReasons(f, reasons) && f.table[i].species in reasons
    ensures var s := f.table[i].species;
      var after := reasons[s := reasons[s] + AddsAll(f.table[i].methods, reasons)];
      Keyed(f, after) && SoundReasons(f, after) && Grew(reasons, after)
  {
    hide AddsAll, Explained;
    var s := f.table[i].species;
    var after := reasons[s := reasons[s] + AddsAll(f.table[i].methods, reasons)];
    forall t, r | t in after && r in after[t] ensures Explained(f, t, r) {
      if t == s && r !in reasons[s] {
        AddsAllIsSound(f, reasons, i, r);
      }
    }
  }

  /** The reasons loop stops at its least fixed point: exactly the explanations. */
  method Explain(f: Facts) returns (reasons: Reasons)
    ensures Keyed(f, reasons)
    ensures forall s, r :: s in reasons ==> (r in reasons[s] <==> Explained(f, s, r))
    ensures ClosedReasons(f, reasons)
  {
    hide Keyed, SoundReasons, AddsAll, Missing, Explained;
    reasons := Initial(f);
    InitialIsSound(f, reasons);
    var changed := true;
    while changed
      invariant Keyed(f, reasons) && SoundReasons(f, reasons)
      invariant !changed ==> ClosedReasons(f, reasons)
      decreases |Missing(f, reasons)|, changed
    {
      changed := false;
      ghost var start := reasons;
      for i := 0 to |f.table|
        invariant Keyed(f, reasons) && SoundReasons(f, reasons) && Grew(start, reasons)
        invariant changed <==> start != reasons
        invariant !changed ==> forall k :: 0 <= k < i && f.table[k].species in reasons ==>
          AddsAll(f.table[k].methods, reasons) <= reasons[f.table[k].species]
      {
        var s := f.table[i].species;
        if s !in f.obtainable {
          ListedIsKeyed(f, reasons, i);
          var before := reasons[s];
          ghost var was := reasons;
          GatheredKeeps(f, reasons, i);
          reasons := Gather(reasons, s, f.table[i].methods);
          GrowingStays(start, was, reasons);
          changed := changed || reasons[s] != before;
        } else {
          ObtainableHasNone(f, reasons, s);
        }
      }
      if changed {
        GrewShrinksMissing(f, start, reasons);
      }
    }
    forall s, r | s in reasons ensures r in reasons[s] <==> Explained(f, s, r) {
      ExplainedIsThere(f, reasons, s, r);
    }
  }

  lemma ListedIsKeyed(f: Facts, reasons: Reasons, i: nat)
    requires i < |f.table| && Keyed(f, reasons) && f.table[i].species !in f.obtainable
    ensures f.table[i].species in reasons
  {}

  lemma ObtainableHasNone(f: Facts, reasons: Reasons, s: Species)
    requires Keyed(f, reasons) && s in f.obtainable
    ensures s !in reasons
  {}

  lemma GrowingStays(start: Reasons, was: Reasons, now: Reasons)
    requires Grew(start, was) && Grew(was, now)
    ensures Grew(start, now)
    ensures start == now ==> was == now
  {
    if start == now {
      forall s | s in was ensures was[s] == now[s] {}
    }
  }

  lemma ExplainedIsThere(f: Facts, reasons: Reasons, s: Species, r: Reason)
    requires Keyed(f, reasons) && SoundReasons(f, reasons) && ClosedReasons(f, reasons) && s in reasons
    ensures r in reasons[s] <==> Explained(f, s, r)
  {
    hide Explains, Keyed, ClosedReasons;
    if Explained(f, s, r) {
      var n: nat :| Explains(f, s, r, n);
      ClosedExplainsAll(f, reasons, s, r, n);
    }
  }

  /** The last pass: what is left without a reason is put on the other version,
      so every unobtainable species ends with one. */
  method FinishReasons(f: Facts, found: Reasons) returns (reasons: Reasons)
    requires Keyed(f, found)
    ensures reasons.Keys == found.Keys
    ensures forall s :: s in found ==> reasons[s] == if found[s] == {} then {OtherVersion} else found[s]
    ensures forall s :: Unobtainable(f, s) ==> s in reasons && reasons[s] != {}
  {
    reasons := found;
    for i := 0 to |f.table|
      invariant reasons.Keys == found.Keys
      invariant forall s :: s in found ==>
        reasons[s] == found[s] || (found[s] == {} && reasons[s] == {OtherVersion})
      invariant forall k :: 0 <= k < i && f.table[k].species in found ==> reasons[f.table[k].species] != {}
    {
      var s := f.table[i].species;
      if s !in f.obtainable && reasons[s] == {} {
        reasons := reasons[s := {OtherVersion}];
      }
    }
  }

  /** What the last pass is for: a species without a reason has only methods
      whose every source is itself without one, or is in no table at all. */
  lemma ReasonlessIsCircular(f: Facts, reasons: Reasons, i: nat, j: nat, k: nat)
    requires Keyed(f, reasons) && ClosedReasons(f, reasons) && Closed(f.table, f.obtainable)
    requires i < |f.table| && f.table[i].species in reasons && reasons[f.table[i].species] == {}
    requires j < |f.table[i].methods|
    ensures var m := f.table[i].methods[j];
      && !m.needsLink && !m.eventOnly && !m.kind.Plain?
      && (k < |Sources(m.kind)| ==> var src := Sources(m.kind)[k];
            src !in f.obtainable && (src in SpeciesOf(f.table) ==> src in reasons && reasons[src] == {}))
  {
    hide AddsAll, Adds;
    var ms := f.table[i].methods;
    var m := ms[j];
    AddsAllHas(ms, reasons, j);
    assert !AnyUsable(ms, f.obtainable);
    UsableIsBySource(m, f.obtainable);
    assert !Usable(m, f.obtainable);
    AddsNothing(m, reasons, k);
  }

  lemma AddsNothing(m: Method, reasons: Reasons, k: nat)
    requires Adds(m, reasons) == {}
    ensures !m.eventOnly && !m.needsLink
    ensures k < |Sources(m.kind)| ==> ReasonsOf(reasons, Sources(m.kind)[k]) == {}
  {
    assert m.eventOnly ==> EventOnly in Adds(m, reasons);
    assert m.needsLink && !m.eventOnly ==> NeedsLink in Adds(m, reasons);
    if k < |Sources(m.kind)| {
      assert forall r :: r in ReasonsOf(reasons, Sources(m.kind)[k]) ==> r in Adds(m, reasons);
    }
  }

  /** What the reasons loop leaves without one. */
  ghost predicate Reasonless(f: Facts, s: Species) {
    Unobtainable(f, s) && forall r :: !Explained(f, s, r)
  }

  /** `src` is what a method of `s` needs. */
  predicate Needs(f: Facts, s: Species, src: Species) {
    exists i, j :: 0 <= i < |f.table| && 0 <= j < |f.table[i].methods| && f.table[i].species == s
                   && src in Sources(f.table[i].methods[j].kind)
  }

  /** A source of the method is a species of the table. */
  predicate NamesOne(m: Method, species: set<Species>) {
    exists k :: 0 <= k < |Sources(m.kind)| && Sources(m.kind)[k] in species
  }

  predicate NeedsOfTheTable(f: Facts, s: Species) {
    exists i, j :: 0 <= i < |f.table| && 0 <= j < |f.table[i].methods| && f.table[i].species == s
                   && NamesOne(f.table[i].methods[j], SpeciesOf(f.table))
  }

  lemma NeedsOneOfTheTable(f: Facts, s: Species)
    ensures NeedsOfTheTable(f, s) <==> exists src :: Needs(f, s, src) && src in SpeciesOf(f.table)
  {
    if NeedsOfTheTable(f, s) {
      var i, j :| 0 <= i < |f.table| && 0 <= j < |f.table[i].methods| && f.table[i].species == s
                  && NamesOne(f.table[i].methods[j], SpeciesOf(f.table));
      var sources := Sources(f.table[i].methods[j].kind);
      var k :| 0 <= k < |sources| && sources[k] in SpeciesOf(f.table);
      assert Needs(f, s, sources[k]);
    }
    if src :| Needs(f, s, src) && src in SpeciesOf(f.table) {
      var i, j :| 0 <= i < |f.table| && 0 <= j < |f.table[i].methods| && f.table[i].species == s
                  && src in Sources(f.table[i].methods[j].kind);
      assert NamesOne(f.table[i].methods[j], SpeciesOf(f.table));
    }
  }

  /** A species without a reason needs another such species exactly where one of
      its methods needs a species of the table at all. */
  lemma ReasonlessGoesOnIff(f: Facts, s: Species)
    requires Closed(f.table, f.obtainable) && Reasonless(f, s)
    ensures (exists src :: Needs(f, s, src) && Reasonless(f, src))
       <==> NeedsOfTheTable(f, s)
  {
    hide Closed, Explained, Needs, NeedsOfTheTable;
    NeedsOneOfTheTable(f, s);
    if src :| Needs(f, s, src) && src in SpeciesOf(f.table) {
      NeededIsReasonless(f, s, src);
    }
  }

  /** From one species without a reason to another that it needs. */
  ghost function PassesOn(f: Facts): Relation<Species> {
    (s: Species, src: Species) => Needs(f, s, src) && Reasonless(f, src)
  }

  /** Passing on for ever is coming round in a circle. */
  lemma PassingOnForEverIsACircle(f: Facts, s: Species)
    requires Reasonless(f, s)
    ensures Endless(PassesOn(f), s) <==> Circles(PassesOn(f), s)
  {
    hide Explained, Needs, Endless, Circles;
    EndlessIffCircles(PassesOn(f), s, SpeciesOf(f.table));
  }

  /** What is left without a reason is all cyclic, as the last pass takes it to
      be, exactly where each such species has a method that needs a species of
      the table. */
  lemma AllReasonlessCircleIff(f: Facts)
    requires Closed(f.table, f.obtainable)
    ensures (forall s :: Reasonless(f, s) ==> Circles(PassesOn(f), s))
       <==> (forall s :: Reasonless(f, s) ==> NeedsOfTheTable(f, s))
  {
    hide Closed, Reasonless, Needs, NeedsOfTheTable, Circles;
    if forall s :: Reasonless(f, s) ==> NeedsOfTheTable(f, s) {
      forall s | Reasonless(f, s) ensures Circles(PassesOn(f), s) {
        NeverStuckIsACircle(f, s);
      }
    }
    if forall s :: Reasonless(f, s) ==> Circles(PassesOn(f), s) {
      forall s | Reasonless(f, s) ensures NeedsOfTheTable(f, s) {
        CircleNeedsOfTheTable(f, s);
      }
    }
  }

  lemma CircleNeedsOfTheTable(f: Facts, s: Species)
    requires Circles(PassesOn(f), s)
    ensures NeedsOfTheTable(f, s)
  {
    hide Explained, Needs, NeedsOfTheTable;
    NeedsOneOfTheTable(f, s);
    var w: seq<Species> :| IsWalk(PassesOn(f), w) && w[0] == s && ComesRound(w);
    StepsOn(f, w, 0);
    assert PassesOn(f)(w[0], w[0 + 1]);
  }

  lemma NeverStuckIsACircle(f: Facts, s: Species)
    requires Closed(f.table, f.obtainable) && Reasonless(f, s)
    requires forall z :: Reasonless(f, z) ==> NeedsOfTheTable(f, z)
    ensures Circles(PassesOn(f), s)
  {
    hide Closed, Explained, Needs, NeedsOfTheTable, Circles, StepsInto, IsWalk;
    var some := set z | z in SpeciesOf(f.table) && Reasonless(f, z);
    forall z | z in some ensures StepsInto(PassesOn(f), z, some) {
      OnwardFrom(f, z, some);
    }
    forall n: nat ensures Reaches(PassesOn(f), s, n) {
      var w := NeverStuck(PassesOn(f), s, some, n);
    }
    PassingOnForEverIsACircle(f, s);
  }

  lemma OnwardFrom(f: Facts, z: Species, some: set<Species>)
    requires Closed(f.table, f.obtainable) && Reasonless(f, z) && NeedsOfTheTable(f, z)
    requires some == set y | y in SpeciesOf(f.table) && Reasonless(f, y)
    ensures StepsInto(PassesOn(f), z, some)
  {
    hide Closed, Explained, Needs, NeedsOfTheTable;
    ReasonlessGoesOnIff(f, z);
    var src :| Needs(f, z, src) && Reasonless(f, src);
    assert src in some && PassesOn(f)(z, src);
  }

  lemma NeededIsReasonless(f: Facts, s: Species, src: Species)
    requires Closed(f.table, f.obtainable) && Reasonless(f, s)
    requires Needs(f, s, src) && src in SpeciesOf(f.table)
    ensures Reasonless(f, src)
  {
    hide Usable, Explains;
    var i, j :| 0 <= i < |f.table| && 0 <= j < |f.table[i].methods| && f.table[i].species == s
                && src in Sources(f.table[i].methods[j].kind);
    var m := f.table[i].methods[j];
    MethodsExplain(f, i, j);
    UsableIsBySource(m, f.obtainable);
    assert !Usable(m, f.obtainable);
    forall r ensures !Explained(f, src, r) {
      if n: nat :| Explains(f, src, r, n) {
        SourceExplains(f, i, j, src, r, n);
        assert false;
      }
    }
  }

  lemma MethodsExplain(f: Facts, i: nat, j: nat)
    requires i < |f.table| && j < |f.table[i].methods| && Unobtainable(f, f.table[i].species)
    ensures var m, s := f.table[i].methods[j], f.table[i].species;
      && (m.eventOnly ==> Explained(f, s, EventOnly))
      && (m.needsLink && !m.eventOnly ==> Explained(f, s, NeedsLink))
  {
    var m, s := f.table[i].methods[j], f.table[i].species;
    assert m.eventOnly ==> Explains(f, s, EventOnly, 0);
    assert m.needsLink && !m.eventOnly ==> Explains(f, s, NeedsLink, 0);
  }

  lemma SourceExplains(f: Facts, i: nat, j: nat, src: Species, r: Reason, n: nat)
    requires i < |f.table| && j < |f.table[i].methods| && Unobtainable(f, f.table[i].species)
    requires var m := f.table[i].methods[j]; !m.eventOnly && !m.needsLink && src in Sources(m.kind)
    requires Explains(f, src, r, n)
    ensures Explained(f, f.table[i].species, r)
  {
    var m := f.table[i].methods[j];
    var k :| 0 <= k < |Sources(m.kind)| && Sources(m.kind)[k] == src;
    assert Explains(f, Sources(m.kind)[k], r, n);
    assert Explains(f, f.table[i].species, r, n + 1);
  }

  /** Where one does not, it is in no circle: a trade for a species in no table. */
  const TRADE_FOR_A_STRANGER: Facts := Facts([Entry(1, [Method(Trade(2), false, false)])], {}, {}, {})

  /** Nor where there is no method at all. */
  const NO_METHOD: Facts := Facts([Entry(1, [])], {}, {}, {})

  /** Needing a species of the table is not enough for one species alone: what
      it needs may have no method. */
  const EVOLVES_FROM_ONE_WITHOUT: Facts :=
    Facts([Entry(1, [Method(Evolve(2), false, false)]), Entry(2, [])], {}, {}, {})

  lemma ReasonlessWithoutACycle()
    ensures Reasonless(TRADE_FOR_A_STRANGER, 1) && Closed(TRADE_FOR_A_STRANGER.table, {})
    ensures Needs(TRADE_FOR_A_STRANGER, 1, 2) && 2 !in SpeciesOf(TRADE_FOR_A_STRANGER.table)
    ensures Reasonless(NO_METHOD, 1) && Closed(NO_METHOD.table, {})
    ensures forall src :: !Needs(NO_METHOD, 1, src)
  {
    var f := TRADE_FOR_A_STRANGER;
    assert f.table[0].species == 1 && f.table[0].methods[0].kind == Trade(2);
    assert Sources(Trade(2))[0] == 2;
    assert NO_METHOD.table[0].species == 1;
    forall n: nat, r ensures !Explains(f, 2, r, n) && !Explains(f, 1, r, n) && !Explains(NO_METHOD, 1, r, n) {}
  }

  lemma NeedingOneWithoutIsNoCircle()
    ensures var f := EVOLVES_FROM_ONE_WITHOUT;
      && Closed(f.table, {}) && Reasonless(f, 1) && Reasonless(f, 2)
      && NeedsOfTheTable(f, 1) && !Circles(PassesOn(f), 1)
  {
    hide NeedsOfTheTable, Circles, Closed, Reasonless;
    var f := EVOLVES_FROM_ONE_WITHOUT;
    OneWithoutFacts();
    NeedsOneOfTheTable(f, 1);
    if Circles(PassesOn(f), 1) {
      NoSecondStep();
    }
  }

  lemma OneWithoutFacts()
    ensures var f := EVOLVES_FROM_ONE_WITHOUT;
      Closed(f.table, {}) && Reasonless(f, 1) && Reasonless(f, 2) && Needs(f, 1, 2) && 2 in SpeciesOf(f.table)
  {
    var f := EVOLVES_FROM_ONE_WITHOUT;
    assert f.table[0].species == 1 && f.table[1].species == 2 && f.table[0].methods[0].kind == Evolve(2);
    assert Sources(Evolve(2))[0] == 2;
    forall n: nat, r ensures !Explains(f, 2, r, n) && !Explains(f, 1, r, n) {
      assert !Explains(f, 2, r, n) && (n > 0 ==> !Explains(f, 2, r, n - 1));
    }
  }

  lemma NoSecondStep()
    ensures !Circles(PassesOn(EVOLVES_FROM_ONE_WITHOUT), 1)
  {
    hide ComesRound;
    forall w: seq<Species> | IsWalk(PassesOn(EVOLVES_FROM_ONE_WITHOUT), w) && w[0] == 1 ensures !ComesRound(w) {
      OnlyOneStep(w);
    }
  }

  lemma StepsOn(f: Facts, w: seq<Species>, i: nat)
    requires IsWalk(PassesOn(f), w) && i + 1 < |w|
    ensures Needs(f, w[i], w[i + 1])
  {
    hide Needs, Reasonless;
    assert PassesOn(f)(w[i], w[i + 1]);
  }

  lemma OnlyOneStep(w: seq<Species>)
    requires IsWalk(PassesOn(EVOLVES_FROM_ONE_WITHOUT), w) && w[0] == 1
    ensures !ComesRound(w)
  {
    hide Reasonless;
    var f := EVOLVES_FROM_ONE_WITHOUT;
    assert forall s, src :: Needs(f, s, src) ==> s == 1 && src == 2;
    if |w| > 2 {
      StepsOn(f, w, 1);
      assert false;
    }
    if |w| == 2 {
      StepsOn(f, w, 0);
    }
  }
}
