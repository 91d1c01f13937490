/** Reading a whole pocket: up until the cursor is on the first row shown, then
    down to CANCEL, collecting the rows that show. */
module BagAudit {
  import opened Seqs
  import opened BagSearch

  /** The rows collected so far, and whether the top was on screen. */
  datatype Audit = Audit(rows: seq<Row>, topSeen: bool)

  datatype Reading = PressTo(button: Button) | Observed(items: seq<Row>)

  /** The rows with those not seen before added, in order. */
  function Merge(seen: seq<Row>, shown: seq<Row>): seq<Row>
    decreases |shown|
  {
    if shown == [] then seen
    else Merge(if shown[0] in seen then seen else seen + [shown[0]], shown[1..])
  }

  function WithoutCancel(rows: seq<Row>): seq<Row>
    decreases |rows|
  {
    if rows == [] then []
    else WithoutCancel(rows[..|rows| - 1]) + if rows[|rows| - 1].CancelRow? then [] else [rows[|rows| - 1]]
  }

  /** One confirmed reading of the list. */
  function Read(v: View, a: Audit): (Reading, Audit) {
    if !a.topSeen && v.cursor != 0 then (PressTo(Up), a)
    else
      var merged := Audit(Merge(a.rows, v.rows), true);
      if CancelRow !in v.rows then (PressTo(Down), merged) else (Observed(WithoutCancel(merged.rows)), merged)
  }

  /** The same as a loop over the rows on screen. */
  method MergeRows(seen: seq<Row>, shown: seq<Row>) returns (rows: seq<Row>)
    ensures rows == Merge(seen, shown)
  {
    rows := seen;
    assert shown[0..] == shown;
    for i := 0 to |shown|
      invariant Merge(rows, shown[i..]) == Merge(seen, shown)
    {
      assert shown[i..][0] == shown[i] && shown[i..][1..] == shown[i + 1..];
      if shown[i] !in rows {
        rows := rows + [shown[i]];
      }
    }
  }

  // ---- Audits of a game's list ----

  datatype Reader = Reader(list: List, audit: Audit)

  function Now(r: Reader): Reading
    requires ValidList(r.list)
  {
    Read(Shown(r.list), r.audit).0
  }

  function Pressed(r: Reader, rule: Rule): Reader
    requires ValidList(r.list) && Now(r).PressTo?
  {
    Reader(rule(r.list, Now(r).button), Read(Shown(r.list), r.audit).1)
  }

  ghost function AuditAfter(r: Reader, rule: Rule, n: nat): Reader
    requires ValidList(r.list) && Legal(rule)
    ensures ValidList(AuditAfter(r, rule, n).list)
    decreases n
  {
    if n == 0 || Now(r).Observed? then r
    else
      PressedIsValid(r, rule);
      AuditAfter(Pressed(r, rule), rule, n - 1)
  }

  lemma PressedIsValid(r: Reader, rule: Rule)
    requires ValidList(r.list) && Legal(rule) && Now(r).PressTo?
    ensures Moved(r.list, Now(r).button, Pressed(r, rule).list)
  {
    hide Read;
  }

  /** The rows from `first` to the window's end or further, and nothing else. */
  predicate Collected(r: Reader, first: nat)
    requires ValidList(r.list)
  {
    && r.audit.topSeen && first <= r.list.top
    && exists e :: r.list.top <= e <= End(r.list) && first <= e && r.audit.rows == r.list.rows[first..e]
  }

  /** Merging rows of a list onto those before them goes on to the later end. */
  lemma {:induction false} MergeExtends(rows: seq<Row>, first: nat, e: nat, from: nat, to: nat)
    requires first <= from <= e <= to <= |rows| && from <= to
    requires forall i, j :: 0 <= i < j < |rows| ==> rows[i] != rows[j]
    ensures Merge(rows[first..e], rows[from..to]) == rows[first..to]
    decreases |rows| - from
  {
    if from < to {
      var shown := rows[from..to];
      assert shown[1..] == rows[from + 1..to] && shown[0] == rows[from];
      InSlice(rows, first, e, rows[from]);
      if from < e {
        MergeExtends(rows, first, e, from + 1, to);
      } else {
        assert rows[first..e] + [rows[e]] == rows[first..e + 1];
        MergeExtends(rows, first, e + 1, from + 1, to);
      }
    }
  }

  lemma ReadingCollects(r: Reader, first: nat)
    requires ValidList(r.list)
    requires Collected(r, first) || (r.audit == Audit([], false) && r.list.selected == r.list.top == first)
    ensures var after := Read(Shown(r.list), r.audit).1;
      after == Audit(r.list.rows[first..End(r.list)], true)
  {
    var g := r.list;
    if Collected(r, first) {
      var e :| g.top <= e <= End(g) && first <= e && r.audit.rows == g.rows[first..e];
      MergeExtends(g.rows, first, e, g.top, End(g));
    } else {
      assert g.rows[first..first] == [];
      MergeExtends(g.rows, first, first, g.top, End(g));
    }
  }

  lemma {:induction false} ItemsOnly(rows: seq<Row>)
    requires forall i :: 0 <= i < |rows| ==> rows[i].Item?
    ensures WithoutCancel(rows) == rows
    decreases |rows|
  {
    if rows != [] {
      ItemsOnly(rows[..|rows| - 1]);
    }
  }

  lemma ItemsOfSuffix(g: List, first: nat)
    requires ValidList(g) && first < |g.rows|
    ensures WithoutCancel(g.rows[first..]) == g.rows[first..|g.rows| - 1]
  {
    var rows := g.rows[first..];
    assert rows[..|rows| - 1] == g.rows[first..|g.rows| - 1];
    ItemsOnly(rows[..|rows| - 1]);
  }

  ghost predicate Begins(r: Reader, first: nat)
    requires ValidList(r.list)
  {
    Collected(r, first) || (r.audit == Audit([], false) && r.list.selected == r.list.top == first)
  }

  lemma EndOfTheList(r: Reader, first: nat)
    requires ValidList(r.list) && Begins(r, first) && End(r.list) == |r.list.rows|
    ensures Now(r) == Observed(r.list.rows[first..|r.list.rows| - 1])
  {
    hide Merge, WithoutCancel;
    var g := r.list;
    ReadingCollects(r, first);
    InSlice(g.rows, g.top, End(g), CancelRow);
    assert g.rows[End(g) - 1] == CancelRow;
    assert g.rows[first..] == g.rows[first..End(g)];
    ItemsOfSuffix(g, first);
  }

  lemma OneRowDown(r: Reader, after: List, first: nat)
    requires ValidList(r.list) && Begins(r, first) && End(r.list) < |r.list.rows|
    ensures Now(r) == PressTo(Down)
    ensures Moved(r.list, Down, after) ==>
      ValidList(after) && after.rows == r.list.rows && after.selected == r.list.selected + 1
      && Begins(Reader(after, Read(Shown(r.list), r.audit).1), first)
  {
    hide Merge, WithoutCancel;
    var g := r.list;
    ReadingCollects(r, first);
    InSlice(g.rows, g.top, End(g), CancelRow);
    if Moved(g, Down, after) {
      assert after.top <= End(g) <= End(after);
    }
  }

  lemma AuditStep(r: Reader, rule: Rule, n: nat)
    requires ValidList(r.list) && Legal(rule) && Now(r).PressTo?
    ensures Moved(r.list, Now(r).button, Pressed(r, rule).list)
    ensures ValidList(Pressed(r, rule).list)
    ensures AuditAfter(r, rule, n + 1) == AuditAfter(Pressed(r, rule), rule, n)
    ensures AuditAfter(r, rule, 0) == r
  {
    hide Read, Shown;
    PressedIsValid(r, rule);
  }

  /** Coming down, the audit ends with the rows from where it began. */
  lemma {:induction false} ComingDownReadsTheRest(r: Reader, rule: Rule, first: nat) returns (n: nat)
    requires ValidList(r.list) && Legal(rule) && Begins(r, first)
    ensures Now(AuditAfter(r, rule, n)) == Observed(r.list.rows[first..|r.list.rows| - 1])
    decreases |r.list.rows| - r.list.selected
  {
    hide Merge, WithoutCancel, Begins, AuditAfter, Legal, Moved, Read;
    if End(r.list) == |r.list.rows| {
      EndOfTheList(r, first);
      n := 0;
      ObservedStays(r, rule);
    } else {
      OneRowDown(r, r.list, first);
      var after := Pressed(r, rule).list;
      OneRowDown(r, after, first);
      AuditStep(r, rule, 0);
      var m := ComingDownReadsTheRest(Pressed(r, rule), rule, first);
      AuditStep(r, rule, m);
      n := m + 1;
    }
  }

  lemma ObservedStays(r: Reader, rule: Rule)
    requires ValidList(r.list) && Legal(rule)
    ensures AuditAfter(r, rule, 0) == r
  {}

  /** Where the cursor is on the first row shown only with the list unscrolled. */
  predicate TopIsTop(g: List) { g.selected == g.top ==> g.top == 0 }

  ghost predicate KeepsTop(rule: Rule) {
    forall g, button :: ValidList(g) && TopIsTop(g) ==> TopIsTop(rule(g, button))
  }

  /** A game that keeps the cursor in the middle while it scrolls is one. */
  function ScrollInTheMiddle(g: List, button: Button): List {
    match button
    case Up =>
      if g.selected == 0 then g
      else g.(selected := g.selected - 1,
              top := if g.top > 0 && g.selected - g.top <= g.window / 2 then g.top - 1 else g.top)
    case Down =>
      if g.selected + 1 >= |g.rows| then g
      else g.(selected := g.selected + 1,
              top := if g.top + g.window < |g.rows| && g.selected - g.top >= g.window / 2 then g.top + 1 else g.top)
  }

  lemma ScrollInTheMiddleKeepsTop()
    ensures Legal(ScrollInTheMiddle) && KeepsTop(ScrollInTheMiddle)
  {}

  /** A game that scrolls only at the window's edges is not: with the cursor
      next to the first row shown, an Up puts it there with rows above. */
  lemma ScrollAtEdgesDoesNotKeepTop(g: List)
    requires ValidList(g) && g.top > 0 && g.selected == g.top + 1
    ensures TopIsTop(g) && !TopIsTop(ScrollAtEdges(g, Up)) && !KeepsTop(ScrollAtEdges)
  {}

  /** In a game whose cursor reaches the first row only at the top, the audit
      ends with exactly the pocket's items, in order. */
  lemma {:induction false} AuditReadsThePocket(g: List, rule: Rule) returns (n: nat)
    requires ValidList(g) && Legal(rule) && KeepsTop(rule) && TopIsTop(g)
    ensures Now(AuditAfter(Reader(g, Audit([], false)), rule, n)) == Observed(g.rows[..|g.rows| - 1])
    decreases g.selected
  {
    hide Merge, WithoutCancel, Moved;
    var r := Reader(g, Audit([], false));
    if g.selected == g.top {
      n := ComingDownReadsTheRest(r, rule, 0);
      assert g.rows[0..|g.rows| - 1] == g.rows[..|g.rows| - 1];
    } else {
      assert Now(r) == PressTo(Up) && Pressed(r, rule).audit == r.audit;
      PressedIsValid(r, rule);
      UpIsUp(g, rule(g, Up));
      var m := AuditReadsThePocket(rule(g, Up), rule);
      n := m + 1;
    }
  }

  lemma UpIsUp(g: List, h: List)
    requires ValidList(g) && g.selected > 0 && Moved(g, Up, h)
    ensures ValidList(h) && h.selected == g.selected - 1 && h.rows == g.rows
  {}

  /** Begun with the cursor on the first row shown, the audit reads the whole
      pocket exactly when that is the list's first row: otherwise what is above
      is never looked at. */
  lemma TopRowMustBeTheTop(g: List, rule: Rule) returns (n: nat)
    requires ValidList(g) && Legal(rule) && g.selected == g.top
    ensures Now(AuditAfter(Reader(g, Audit([], false)), rule, n)).Observed?
    ensures Now(AuditAfter(Reader(g, Audit([], false)), rule, n)) == Observed(g.rows[..|g.rows| - 1]) <==> g.top == 0
  {
    n := ComingDownReadsTheRest(Reader(g, Audit([], false)), rule, g.top);
    assert |g.rows[g.top..|g.rows| - 1]| == |g.rows| - 1 - g.top;
    assert |g.rows[..|g.rows| - 1]| == |g.rows| - 1;
    if g.top == 0 {
      assert g.rows[0..|g.rows| - 1] == g.rows[..|g.rows| - 1];
    }
  }
}
