/** Searching a bag list for an item, one press at a time, against a window that
    scrolls over the list. */
module BagSearch {
  import opened Seqs
  import opened Wrappers

  datatype Name = Hm(n: nat) | Tm(n: nat) | Other(n: nat)

  datatype Row = Item(name: Name) | CancelRow

  const CANCEL_RANK: nat := 0xFFFF_FFFF

  /** Where a name sorts in the TM Case: HMs by number, then TMs by number. */
  function CaseRank(name: Name): Option<nat> {
    match name
    case Hm(n) => Some(n)
    case Tm(n) => Some(100 + n)
    case Other(_) => None
  }

  /** The TM Case's order: every HM before every TM, each kind by number, and
      CANCEL last. */
  predicate InOrder(a: Row, b: Row) {
    match (a, b)
    case (Item(Hm(m)), Item(Hm(n))) => m < n
    case (Item(Tm(m)), Item(Tm(n))) => m < n
    case (Item(Hm(_)), Item(Tm(_))) => true
    case (Item(Hm(_)), CancelRow) => true
    case (Item(Tm(_)), CancelRow) => true
    case _ => false
  }

  /** Ranks tell that order for any numbers a machine may have, which are at most
      a hundred; and only for HMs up to that do they keep HM before TM. */
  lemma RankIsTheOrder(a: Row, b: Row)
    requires RowRank(a).Some? && RowRank(b).Some?
    requires a.Item? ==> a.name.n < 0x1_0000 && (a.name.Hm? ==> a.name.n <= 100)
    requires b.Item? ==> b.name.n < 0x1_0000 && (b.name.Hm? ==> b.name.n <= 100)
    requires b.Item? && b.name.Tm? ==> b.name.n > 0
    requires a.Item? && a.name.Tm? ==> a.name.n > 0
    ensures RowRank(a).value < RowRank(b).value <==> InOrder(a, b)
  {}

  /** An HM ranks before all TMs exactly when its number is at most a hundred. */
  lemma HmsComeFirstUpToAHundred(m: nat)
    ensures (forall n: nat :: n > 0 ==> CaseRank(Hm(m)).value < CaseRank(Tm(n)).value) <==> m <= 100
  {
    if m > 100 {
      assert CaseRank(Hm(m)).value >= CaseRank(Tm(1)).value;
    }
  }

  /** A name has a rank exactly when it is a machine's. */
  lemma OnlyMachinesHaveARank(name: Name)
    ensures CaseRank(name).None? <==> name.Other?
  {}

  function RowRank(row: Row): Option<nat> {
    if row.CancelRow? then Some(CANCEL_RANK) else CaseRank(row.name)
  }

  /** Rows a list shows at once. */
  function WindowRows(isCase: bool): nat { if isCase then 5 else 6 }

  datatype Button = Up | Down

  // ---- The choice ----

  datatype View = View(cursor: nat, rows: seq<Row>)

  /** The search so far: whether it has turned down, and the view an Up was sent
      from. */
  datatype Seek = Seek(down: bool, from: Option<View>)

  const FRESH := Seek(false, None)

  datatype Decision = Open | Press(button: Button) | NotInPocket | NotInCase

  function Find(rows: seq<Row>, item: Name): (r: Option<nat>)
    ensures r.Some? ==> r.value < |rows| && rows[r.value] == Item(item)
    ensures r.None? ==> Item(item) !in rows
    decreases |rows|
  {
    if rows == [] then None
    else if rows[0] == Item(item) then Some(0)
    else match Find(rows[1..], item) case None => None case Some(i) => Some(i + 1)
  }

  /** The least and the greatest rank shown, of the rows that have one. */
  function RankSpan(rows: seq<Row>): Option<(nat, nat)>
    decreases |rows|
  {
    if rows == [] then None
    else
      match (RowRank(rows[0]), RankSpan(rows[1..]))
      case (None, rest) => rest
      case (Some(r), None) => Some((r, r))
      case (Some(r), Some(span)) => Some((if r < span.0 then r else span.0, if r > span.1 then r else span.1))
  }

  /** One call of select_item with no prompt open: what to do, and how the
      search stands after. */
  function SelectItem(v: View, isCase: bool, item: Name, seek: Seek): (Decision, Seek) {
    match Find(v.rows, item)
    case Some(target) =>
      (if v.cursor == target then Open else Press(if v.cursor < target then Down else Up), seek)
    case None =>
      var cancel := CancelRow in v.rows;
      if cancel && |v.rows| < WindowRows(isCase) then (NotInPocket, seek)
      else if isCase && CaseRank(item).Some? && RankSpan(v.rows).Some? then
        var want, span := CaseRank(item).value, RankSpan(v.rows).value;
        (if want < span.0 then Press(Up) else if want > span.1 then Press(Down) else NotInCase, seek)
      else
        var turned := seek.(down := seek.down || seek.from == Some(v));
        if turned.down && cancel then (NotInPocket, turned)
        else if turned.down then (Press(Down), turned)
        else (Press(Up), turned.(from := Some(v)))
  }

  // ---- The game's list ----

  /** The pocket's rows, CANCEL last, and which of them show. */
  datatype List = List(rows: seq<Row>, window: nat, top: nat, selected: nat)

  predicate ValidList(g: List) {
    && g.rows != [] && g.rows[|g.rows| - 1] == CancelRow
    && (forall i :: 0 <= i < |g.rows| - 1 ==> g.rows[i].Item?)
    && (forall i, j :: 0 <= i < j < |g.rows| ==> g.rows[i] != g.rows[j])
    && g.top <= g.selected < End(g)
    && (g.top > 0 ==> g.top + g.window <= |g.rows|)
    && g.window >= 2
  }

  function End(g: List): nat {
    if g.top + g.window < |g.rows| then g.top + g.window else |g.rows|
  }

  function Shown(g: List): View
    requires ValidList(g)
  {
    View(g.selected - g.top, g.rows[g.top..End(g)])
  }

  /** A press moves the selection one row, where there is one, and scrolls by at
      most one row the same way, however the game chooses when. */
  ghost predicate Moved(g: List, button: Button, after: List)
    requires ValidList(g)
  {
    && ValidList(after) && after.rows == g.rows && after.window == g.window
    && match button
       case Up =>
         && after.selected == (if g.selected > 0 then g.selected - 1 else 0)
         && after.top <= g.top <= after.top + 1
       case Down =>
         && after.selected == (if g.selected + 1 < |g.rows| then g.selected + 1 else g.selected)
         && g.top <= after.top <= g.top + 1
  }

  /** How the game scrolls. */
  type Rule = (List, Button) -> List

  ghost predicate Legal(rule: Rule) {
    forall g, button :: ValidList(g) ==> Moved(g, button, rule(g, button))
  }

  /** One way a game may scroll: only when the selection would leave the window. */
  function ScrollAtEdges(g: List, button: Button): List {
    match button
    case Up =>
      if g.selected == 0 then g
      else g.(selected := g.selected - 1, top := if g.selected == g.top && g.top > 0 then g.top - 1 else g.top)
    case Down =>
      if g.selected + 1 >= |g.rows| then g
      else g.(selected := g.selected + 1, top := if g.selected + 1 == g.top + g.window then g.top + 1 else g.top)
  }

  lemma ScrollAtEdgesIsLegal()
    ensures Legal(ScrollAtEdges)
  {}

  // ---- Searches ----

  datatype Search = Search(list: List, isCase: bool, item: Name, seek: Seek)

  predicate Sorted(rows: seq<Row>) {
    && (forall i :: 0 <= i < |rows| ==> RowRank(rows[i]).Some?)
    && (forall i, j :: 0 <= i < j < |rows| ==> RowRank(rows[i]).value < RowRank(rows[j]).value)
  }

  /** Rows of the machines there are, and CANCEL, are sorted just when they are in
      the TM Case's order. */
  lemma SortedIsInOrder(rows: seq<Row>)
    requires forall i :: 0 <= i < |rows| && rows[i].Item? ==>
      var name := rows[i].name;
      !name.Other? && 0 < name.n < 0x1_0000 && (name.Hm? ==> name.n <= 100)
    ensures Sorted(rows) <==> forall i, j :: 0 <= i < j < |rows| ==> InOrder(rows[i], rows[j])
  {
    forall i, j | 0 <= i < j < |rows|
      ensures RowRank(rows[i]).Some? && RowRank(rows[j]).Some?
      ensures RowRank(rows[i]).value < RowRank(rows[j]).value <==> InOrder(rows[i], rows[j])
    {
      RankIsTheOrder(rows[i], rows[j]);
    }
  }

  predicate ValidSearch(s: Search) {
    && ValidList(s.list) && s.list.window == (if s.isCase then 5 else 6)
    && (s.isCase ==> Sorted(s.list.rows))
    && (CaseRank(s.item).Some? ==> CaseRank(s.item).value < CANCEL_RANK)
  }

  function Decide(s: Search): Decision
    requires ValidSearch(s)
  {
    SelectItem(Shown(s.list), s.isCase, s.item, s.seek).0
  }

  /** The search after a decision that is a press. */
  function Next(s: Search, rule: Rule): Search
    requires ValidSearch(s) && Decide(s).Press?
  {
    s.(seek := SelectItem(Shown(s.list), s.isCase, s.item, s.seek).1, list := rule(s.list, Decide(s).button))
  }

  predicate Holds(s: Search) { Item(s.item) in s.list.rows }

  /** Whether the item is looked for by rank. */
  predicate ByRank(s: Search) { s.isCase && CaseRank(s.item).Some? }

  /** The item would sort before everything in a case too long to show whole. */
  predicate Hopeless(s: Search)
    requires ValidSearch(s)
  {
    ByRank(s) && |s.list.rows| >= s.list.window && CaseRank(s.item).value < RowRank(s.list.rows[0]).value
  }

  /** What the search knows: having turned down, nothing down to the window's
      end is the item; before, the last Up moved or was at the top. */
  predicate Knows(s: Search)
    requires ValidSearch(s)
  {
    ByRank(s) || Find(Shown(s.list).rows, s.item).Some? || (
      && (s.seek.down ==> forall i :: 0 <= i < End(s.list) ==> s.list.rows[i] != Item(s.item))
      && (!s.seek.down && s.seek.from == Some(Shown(s.list)) ==> s.list.selected == 0))
  }

  ghost predicate Right(s: Search)
    requires ValidSearch(s)
  {
    match Decide(s)
    case Open => s.list.rows[s.list.selected] == Item(s.item)
    case NotInPocket => !Holds(s)
    case NotInCase => !Holds(s)
    case Press(_) => true
  }

  lemma InSlice(rows: seq<Row>, a: nat, b: nat, x: Row)
    requires a <= b <= |rows|
    ensures x in rows[a..b] <==> exists i :: a <= i < b && rows[i] == x
  {
    if x in rows[a..b] {
      var i :| 0 <= i < b - a && rows[a..b][i] == x;
      assert rows[a + i] == x;
    }
    if i :| a <= i < b && rows[i] == x {
      assert rows[a..b][i - a] == x;
    }
  }

  lemma ShownHas(g: List, item: Name)
    requires ValidList(g)
    ensures Find(Shown(g).rows, item).Some? <==> exists i :: g.top <= i < End(g) && g.rows[i] == Item(item)
    ensures CancelRow in Shown(g).rows <==> End(g) == |g.rows|
  {
    hide Find;
    InSlice(g.rows, g.top, End(g), Item(item));
    InSlice(g.rows, g.top, End(g), CancelRow);
    FindIn(Shown(g).rows, item);
  }

  lemma FindIn(rows: seq<Row>, item: Name)
    ensures Find(rows, item).Some? <==> Item(item) in rows
  {}

  /** In sorted rows the first shown is the least and the last the greatest. */
  lemma {:induction false} SpanOfSorted(rows: seq<Row>)
    requires Sorted(rows) && rows != []
    ensures RankSpan(rows) == Some((RowRank(rows[0]).value, RowRank(rows[|rows| - 1]).value))
    decreases |rows|
  {
    if |rows| == 1 {
      assert rows[1..] == [];
    } else {
      SpanOfSorted(rows[1..]);
    }
  }

  lemma SortedSlice(rows: seq<Row>, a: nat, b: nat)
    requires Sorted(rows) && a <= b <= |rows|
    ensures Sorted(rows[a..b])
  {}

  // ---- Each decision is right ----

  lemma SpanShown(s: Search)
    requires ValidSearch(s) && s.isCase
    ensures RankSpan(Shown(s.list).rows)
         == Some((RowRank(s.list.rows[s.list.top]).value, RowRank(s.list.rows[End(s.list) - 1]).value))
  {
    hide RankSpan, RowRank;
    SortedSlice(s.list.rows, s.list.top, End(s.list));
    SpanOfSorted(Shown(s.list).rows);
  }

  lemma CaseDecisionIsRight(s: Search)
    requires ValidSearch(s) && ByRank(s)
    ensures Right(s)
  {
    hide Find, RankSpan;
    ShownHas(s.list, s.item);
    SpanShown(s);
    FindIn(Shown(s.list).rows, s.item);
    WholeListShows(s);
    if Holds(s) {
      var i :| 0 <= i < |s.list.rows| && s.list.rows[i] == Item(s.item);
      assert RowRank(s.list.rows[i]).value == CaseRank(s.item).value;
    }
  }

  /** Fewer rows than the window, CANCEL among them, are all of them. */
  lemma WholeListShows(s: Search)
    requires ValidSearch(s)
    ensures End(s.list) == |s.list.rows| && |Shown(s.list).rows| < s.list.window ==> s.list.top == 0
  {}

  lemma PlainDecisionIsRight(s: Search)
    requires ValidSearch(s) && !ByRank(s) && Knows(s)
    ensures Right(s)
  {
    hide Find, RankSpan;
    ShownHas(s.list, s.item);
    FindIn(Shown(s.list).rows, s.item);
    if !s.seek.down && s.seek.from == Some(Shown(s.list)) && Find(Shown(s.list).rows, s.item).None? {
      assert s.list.top == 0;
    }
  }

  // ---- Each press makes progress ----

  predicate Visible(s: Search)
    requires ValidSearch(s)
  {
    exists i :: s.list.top <= i < End(s.list) && s.list.rows[i] == Item(s.item)
  }

  predicate Turned(s: Search)
    requires ValidSearch(s)
  {
    s.seek.down || s.seek.from == Some(Shown(s.list))
  }

  /** Going up to the top, then coming down or following the ranks, then moving
      to the item on screen. */
  function Phase(s: Search): nat
    requires ValidSearch(s)
  {
    if Visible(s) then 0 else if ByRank(s) || Turned(s) then 1 else 2
  }

  function IndexOf(rows: seq<Row>, x: Row): nat
    decreases |rows|
  {
    if rows == [] || rows[0] == x then 0 else 1 + IndexOf(rows[1..], x)
  }

  lemma {:induction false} IndexOfIs(rows: seq<Row>, x: Row, i: nat)
    requires i < |rows| && rows[i] == x && forall j :: 0 <= j < i ==> rows[j] != x
    ensures IndexOf(rows, x) == i
    decreases i
  {
    if i > 0 {
      IndexOfIs(rows[1..], x, i - 1);
    }
  }

  function Left(s: Search): int
    requires ValidSearch(s)
  {
    var at := IndexOf(s.list.rows, Item(s.item));
    if Visible(s) then (if at < s.list.selected then s.list.selected - at else at - s.list.selected)
    else if Phase(s) == 2 || (ByRank(s) && CaseRank(s.item).value < RowRank(s.list.rows[s.list.top]).value)
      then s.list.selected
    else |s.list.rows| - s.list.selected
  }

  ghost predicate Closer(s: Search, after: Search)
    requires ValidSearch(s) && ValidSearch(after)
  {
    0 <= Left(after) && (Phase(after) < Phase(s) || (Phase(after) == Phase(s) && Left(after) < Left(s)))
  }

  /** After `s`'s press moved the list. */
  ghost predicate Follows(s: Search, after: Search)
    requires ValidSearch(s)
  {
    && Decide(s).Press? && Moved(s.list, Decide(s).button, after.list)
    && after == s.(list := after.list, seek := SelectItem(Shown(s.list), s.isCase, s.item, s.seek).1)
  }

  /** With the item on screen the presses go to it, and it stays on screen. */
  lemma MovesToTheItem(s: Search, after: Search)
    requires ValidSearch(s) && Visible(s) && Follows(s, after)
    ensures ValidSearch(after) && Visible(after) && Knows(after) && Closer(s, after)
  {
    hide Find, RankSpan, IndexOf;
    var g, h, x := s.list, after.list, Item(s.item);
    ShownHas(g, s.item);
    ShownHas(h, s.item);
    var t := g.top + Find(Shown(g).rows, s.item).value;
    assert g.rows[t] == x;
    IndexOfIs(g.rows, x, t);
    assert h.rows[t] == x && h.top <= t < End(h);
  }

  lemma FollowsTheRanks(s: Search, after: Search)
    requires ValidSearch(s) && !Visible(s) && ByRank(s) && !Hopeless(s) && Follows(s, after)
    ensures ValidSearch(after) && Knows(after) && (Visible(after) || Closer(s, after) || !Decide(after).Press?)
  {
    hide Find, RankSpan, IndexOf;
    ShownHas(s.list, s.item);
    ShownHas(after.list, s.item);
    SpanShown(s);
    SpanShown(after);
    WholeListShows(s);
  }

  /** Two views are the same only of the same place in the list. */
  lemma ViewsDiffer(g: List, h: List)
    requires ValidList(g) && ValidList(h) && g.rows == h.rows && g.window == h.window && g.selected != h.selected
    ensures Shown(g) != Shown(h)
  {
    assert Shown(g).rows[0] == g.rows[g.top] && Shown(h).rows[0] == h.rows[h.top];
  }

  lemma GoesUp(s: Search, after: Search)
    requires ValidSearch(s) && !Visible(s) && !ByRank(s) && !Turned(s) && Follows(s, after)
    ensures ValidSearch(after) && Knows(after) && (Visible(after) || Closer(s, after))
  {
    hide Find, RankSpan, IndexOf;
    var g, h := s.list, after.list;
    ShownHas(g, s.item);
    ShownHas(h, s.item);
    assert Decide(s) == Press(Up) && after.seek == s.seek.(from := Some(Shown(g)));
    if g.selected > 0 {
      ViewsDiffer(g, h);
    } else {
      assert h == g;
    }
  }

  lemma TurnedPressesDown(s: Search)
    requires ValidSearch(s) && !Visible(s) && !ByRank(s) && Turned(s) && Decide(s).Press?
    ensures Decide(s) == Press(Down) && End(s.list) < |s.list.rows|
    ensures SelectItem(Shown(s.list), s.isCase, s.item, s.seek).1 == s.seek.(down := true)
  {
    hide Find, RankSpan;
    ShownHas(s.list, s.item);
  }

  /** Having turned, it has seen every row down to the window's end. */
  lemma TurnedSawAll(s: Search)
    requires ValidSearch(s) && !Visible(s) && !ByRank(s) && Turned(s) && Knows(s)
    ensures forall i :: 0 <= i < End(s.list) ==> s.list.rows[i] != Item(s.item)
  {
    hide Find;
    ShownHas(s.list, s.item);
    if !s.seek.down {
      assert s.list.top == 0;
    }
  }

  lemma ComesDown(s: Search, after: Search)
    requires ValidSearch(s) && !Visible(s) && !ByRank(s) && Turned(s) && Knows(s) && Follows(s, after)
    ensures ValidSearch(after) && Knows(after) && (Visible(after) || Closer(s, after))
  {
    hide Find, RankSpan, IndexOf, SelectItem, Decide;
    TurnedPressesDown(s);
    TurnedSawAll(s);
    ShownHas(after.list, s.item);
    assert End(after.list) <= End(s.list) + 1;
    if !Visible(after) {
      forall i | 0 <= i < End(after.list) ensures after.list.rows[i] != Item(s.item) {}
    }
  }

  lemma PressMakesProgress(s: Search, after: Search)
    requires ValidSearch(s) && Knows(s) && !Hopeless(s) && Follows(s, after)
    ensures ValidSearch(after) && Knows(after) && !Hopeless(after) && (Closer(s, after) || !Decide(after).Press?)
  {
    hide Knows, Find, RankSpan, IndexOf, Moved, SelectItem;
    FollowsKeepsRows(s, after);
    if Visible(s) {
      MovesToTheItem(s, after);
    } else if ByRank(s) {
      FollowsTheRanks(s, after);
      NowVisible(s, after);
    } else if Turned(s) {
      ComesDown(s, after);
      NowVisible(s, after);
    } else {
      GoesUp(s, after);
      NowVisible(s, after);
    }
  }

  lemma FollowsKeepsRows(s: Search, after: Search)
    requires ValidSearch(s) && Follows(s, after)
    ensures after.list.rows == s.list.rows && after.item == s.item
  {
    hide SelectItem;
  }

  lemma NowVisible(s: Search, after: Search)
    requires ValidSearch(s) && ValidSearch(after) && !Visible(s)
      && s.list.rows == after.list.rows && s.item == after.item
    ensures Visible(after) ==> Closer(s, after)
  {}

  // ---- Whole searches ----

  ghost function After(s: Search, rule: Rule, n: nat): Search
    requires ValidSearch(s) && Legal(rule)
    ensures ValidSearch(After(s, rule, n))
    decreases n
  {
    if n == 0 || !Decide(s).Press? then s
    else
      NextIsValid(s, rule);
      After(Next(s, rule), rule, n - 1)
  }

  lemma NextIsValid(s: Search, rule: Rule)
    requires ValidSearch(s) && Legal(rule) && Decide(s).Press?
    ensures ValidSearch(Next(s, rule)) && Follows(s, Next(s, rule))
  {
    hide SelectItem;
  }

  /** However the game scrolls and wherever the list starts, a search that is
      not hopeless ends: on the item when it is there, and with a failure only
      when it is not. */
  lemma {:induction false} SearchEnds(s: Search, rule: Rule) returns (n: nat)
    requires ValidSearch(s) && Legal(rule) && Knows(s) && !Hopeless(s)
    ensures !Decide(After(s, rule, n)).Press? && Right(After(s, rule, n))
    ensures Decide(After(s, rule, n)).Open? <==> Holds(s)
    decreases Phase(s), Left(s)
  {
    hide Knows, Find, Hopeless, IndexOf, Decide, SelectItem, Phase, Left;
    if Decide(s).Press? {
      var next := Next(s, rule);
      NextIsValid(s, rule);
      PressMakesProgress(s, next);
      if Decide(next).Press? {
        var m := SearchEnds(next, rule);
        n := m + 1;
      } else {
        n := 1;
        EndsHere(next, rule);
      }
    } else {
      n := 0;
      EndsHere(s, rule);
    }
  }

  lemma EndsHere(s: Search, rule: Rule)
    requires ValidSearch(s) && Legal(rule) && Knows(s) && !Decide(s).Press?
    ensures After(s, rule, 0) == s && Right(s) && (Decide(s).Open? <==> Holds(s))
  {
    hide SelectItem;
    if ByRank(s) {
      CaseDecisionIsRight(s);
    } else {
      PlainDecisionIsRight(s);
    }
    if Decide(s).Open? {
      assert s.list.rows[s.list.selected] in s.list.rows;
    }
  }

  /** A search by rank for an item that would sort first, in a case too long to
      show whole, presses Up for ever. */
  lemma {:induction false} HopelessNeverEnds(s: Search, rule: Rule, n: nat)
    requires ValidSearch(s) && Legal(rule) && Hopeless(s)
    ensures Decide(After(s, rule, n)) == Press(Up)
    decreases n
  {
    hide After;
    HopelessPressesUp(s);
    AfterUnfolds(s, rule, n);
    if n > 0 {
      NextIsValid(s, rule);
      HopelessNeverEnds(Next(s, rule), rule, n - 1);
    }
  }

  lemma AfterUnfolds(s: Search, rule: Rule, n: nat)
    requires ValidSearch(s) && Legal(rule) && Decide(s).Press?
    ensures ValidSearch(Next(s, rule))
    ensures After(s, rule, n) == if n == 0 then s else After(Next(s, rule), rule, n - 1)
  {
    NextIsValid(s, rule);
  }

  lemma HopelessPressesUp(s: Search)
    requires ValidSearch(s) && Hopeless(s)
    ensures Decide(s) == Press(Up)
  {
    hide Find, RankSpan;
    ShownHas(s.list, s.item);
    SpanShown(s);
    WholeListShows(s);
    var want := CaseRank(s.item).value;
    assert forall i :: 0 <= i < |s.list.rows| ==> want < RowRank(s.list.rows[i]).value;
    assert RowRank(Item(s.item)) == Some(want);
  }

  /** A fresh search ends exactly when it is not hopeless. */
  lemma SearchEndsIff(list: List, isCase: bool, item: Name, rule: Rule)
    requires ValidSearch(Search(list, isCase, item, FRESH)) && Legal(rule)
    ensures (exists n: nat :: !Decide(After(Search(list, isCase, item, FRESH), rule, n)).Press?)
       <==> !Hopeless(Search(list, isCase, item, FRESH))
  {
    hide After, Decide, Hopeless;
    var s := Search(list, isCase, item, FRESH);
    if Hopeless(s) {
      forall n: nat ensures Decide(After(s, rule, n)) == Press(Up) {
        HopelessNeverEnds(s, rule, n);
      }
    } else {
      assert Knows(s);
      var n := SearchEnds(s, rule);
    }
  }
}
