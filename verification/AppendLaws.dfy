/** Appending to a grouped table commutes with packing it. */
module AppendLaws {
  import opened Options
  import opened Rows
  import opened Grouping
  import opened MapperReader
  import opened Tables
  import opened PackLaws
  import opened RoundTrip

  // ---- rows that sort behind all others ----

  lemma {:induction false} SortAppended(s: seq<Row>, t: seq<Row>)
    requires Ascending(t) && forall x, y :: x in s && y in t ==> Id(x) <= Id(y)
    ensures StableSort(s + t) == StableSort(s) + t
  {
    if t == [] {
      assert s + t == s;
    } else {
      var front, r := t[..|t| - 1], t[|t| - 1];
      assert t == front + [r];
      SortAppended(s, front);
      SortAppendedStep(s, t, front, r);
    }
  }

  lemma {:induction false} SortAppendedStep(s: seq<Row>, t: seq<Row>, front: seq<Row>, r: Row)
    requires t == front + [r] && Ascending(t) && forall x, y :: x in s && y in t ==> Id(x) <= Id(y)
    requires StableSort(s + front) == StableSort(s) + front
    ensures StableSort(s + t) == StableSort(s) + t
  {
    assert StableSort(s + t) == InsertAfterEquals(StableSort(s) + front, r) by {
      assert s + t == (s + front) + [r];
      SortMore(s + front, r);
    }
    BehindSorted(s, front, r);
    assert StableSort(s) + t == (StableSort(s) + front) + [r];
  }

  lemma {:induction false} BehindSorted(s: seq<Row>, front: seq<Row>, r: Row)
    requires (forall x :: x in s ==> Id(x) <= Id(r)) && Ascending(front + [r])
    ensures InsertAfterEquals(StableSort(s) + front, r) == (StableSort(s) + front) + [r]
  {
    StableSortSameRows(s);
    var all := front + [r];
    forall x | x in front ensures Id(x) <= Id(r) {
      var i :| 0 <= i < |front| && front[i] == x;
      assert all[i] == x && all[|front|] == r;
    }
    InsertBehind(StableSort(s) + front, r);
  }

  lemma {:induction false} InsertBehind(s: seq<Row>, r: Row)
    requires forall x :: x in s ==> Id(x) <= Id(r)
    ensures InsertAfterEquals(s, r) == s + [r]
  {}

  /** The largest id of a table is the id of its last group. */
  lemma {:induction false} MaxIsLastId(rows: seq<Row>)
    requires rows != [] && forall r: Row :: r in rows ==> GROUP in r && r[GROUP].Int?
    ensures MaxId(rows).Some? && forall r :: r in rows ==> Id(r) <= MaxId(rows).value
    ensures exists r :: r in rows && Id(r) == MaxId(rows).value
  {
    var front, r := rows[..|rows| - 1], rows[|rows| - 1];
    assert rows == front + [r];
    assert r in rows;
    if front == [] {
      assert MaxId(front) == None;
    } else {
      MaxIsLastId(front);
      var x :| x in front && Id(x) == MaxId(front).value;
      assert x in rows;
    }
  }

  lemma {:induction false} LastSortedId(rows: seq<Row>, g: int)
    requires (forall r :: r in rows ==> Id(r) <= g) && exists r :: r in rows && Id(r) == g
    ensures StableSort(rows) != [] && Id(StableSort(rows)[|StableSort(rows)| - 1]) == g
  {
    hide StableSort, Ids, Select;
    var sorted := StableSort(rows);
    StableSortCorrect(rows);
    StableSortSameRows(rows);
    var r :| r in rows && Id(r) == g;
    assert r in sorted;
    var i :| 0 <= i < |sorted| && sorted[i] == r;
    assert sorted[|sorted| - 1] in rows;
  }

  ghost function GrowLast(groups: seq<seq<Row>>, block: seq<Row>): seq<seq<Row>>
    requires groups != []
  {
    groups[..|groups| - 1] + [groups[|groups| - 1] + block]
  }

  lemma {:induction false} GrowLastMore(groups: seq<seq<Row>>, a: seq<Row>, b: seq<Row>)
    requires groups != []
    ensures GrowLast(GrowLast(groups, a), b) == GrowLast(groups, a + b)
    ensures GrowLast(groups, []) == groups
  {
    var last := groups[|groups| - 1];
    assert last + a + b == last + (a + b);
    assert last + [] == last;
  }

  lemma {:induction false} RunsExtended(s: seq<Row>, block: seq<Row>)
    requires s != [] && forall r :: r in block ==> Id(r) == Id(s[|s| - 1])
    ensures Runs(s) != [] && Runs(s + block) == GrowLast(Runs(s), block)
  {
    RunsNonEmpty(s);
    if block == [] {
      assert s + block == s;
      GrowLastMore(Runs(s), [], []);
    } else {
      var front, r := block[..|block| - 1], block[|block| - 1];
      assert block == front + [r];
      RunsExtended(s, front);
      RunsExtendedStep(s, block, front, r);
    }
  }

  lemma {:induction false} RunsExtendedStep(s: seq<Row>, block: seq<Row>, front: seq<Row>, r: Row)
    requires s != [] && block == front + [r] && forall r :: r in block ==> Id(r) == Id(s[|s| - 1])
    requires Runs(s) != [] && Runs(s + front) == GrowLast(Runs(s), front)
    ensures Runs(s + block) == GrowLast(Runs(s), block)
  {
    var u := s + front;
    assert Id(u[|u| - 1]) == Id(r);
    assert s + block == u + [r];
    RunsMore(u, r);
    GrowLastMore(Runs(s), front, [r]);
  }

  // ---- the appended table ----

  /** New elements whose columns are those of the table, their group aside. */
  ghost predicate Matching(elems: seq<Value>, t: ArrowTable) {
    && elems != []
    && forall i :: 0 <= i < |elems| ==> elems[i].Dict? && elems[i].fields.Keys + {GROUP} == t.cols
  }

  lemma {:induction false} SameColumns(rows: seq<Row>, cols: set<Column>)
    requires forall i :: 0 <= i < |rows| ==> rows[i].Keys == cols
    ensures seq(|rows|, i requires 0 <= i < |rows| => WithColumns(rows[i], cols)) == rows
  {
    forall i | 0 <= i < |rows| ensures WithColumns(rows[i], cols) == rows[i] {}
  }

  lemma {:induction false} NewRowsTable(t: ArrowTable, elems: seq<Value>, mode: AddMode)
    requires Matching(elems, t) && (mode.SharedGroup? || mode.FreshGroups?)
    ensures NewTable(List(elems), mode) == Ok(ArrowTable(t.cols, NewRows(elems, mode)))
    ensures forall i :: 0 <= i < |elems| ==> NewRows(elems, mode)[i].Keys == t.cols
  {
    var rows := NewRows(elems, mode);
    forall i | 0 <= i < |elems| ensures rows[i].Keys == t.cols {
      assert rows[i].Keys == elems[i].fields.Keys + {GROUP};
    }
    SameColumns(rows, t.cols);
  }

  lemma {:induction false} AppendedRows(t: ArrowTable, elems: seq<Value>, mode: AddMode, addNewGroup: bool, isGrouped: bool)
    requires t.Valid() && Matching(elems, t) && (mode.SharedGroup? || mode.FreshGroups?)
    requires AddModeFor(t, addNewGroup, isGrouped, -1) == Ok(mode)
    ensures Appended(t, List(elems), addNewGroup, isGrouped) == Ok(ArrowTable(t.cols, t.rows + NewRows(elems, mode)))
  {
    NewRowsTable(t, elems, mode);
    var rows := t.rows + NewRows(elems, mode);
    forall i | 0 <= i < |rows| ensures rows[i].Keys == t.cols {
      if i < |t.rows| { assert t.rows[i] in t.rows; }
    }
    SameColumns(rows, t.cols);
    assert t.cols + t.cols == t.cols;
  }

  /** The new rows carry the ids they were given and pack to the payloads of the elements. */
  lemma {:induction false} NewRowsMarked(elems: seq<Value>, mode: AddMode)
    requires AllDicts(elems)
    requires (mode.SharedGroup? && mode.id.Int?) || mode.FreshGroups?
    ensures forall i :: 0 <= i < |elems| ==>
      Id(NewRows(elems, mode)[i]) == if mode.SharedGroup? then mode.id.n else mode.first + i
    ensures RowsToDicts(Payloads(NewRows(elems, mode))) == PayloadItems(elems)
  {
    forall i | 0 <= i < |elems| ensures Payload(NewRows(elems, mode)[i]) == Payload(elems[i].fields) {
      PayloadIgnoresMarks(elems[i].fields, if mode.SharedGroup? then mode.id.n else mode.first + i, 0);
    }
  }

  function Singletons(items: seq<Value>): seq<Value> {
    seq(|items|, i requires 0 <= i < |items| => List([items[i]]))
  }

  /** What the packed rows become: the last one grows, one row is added, or one row per element. */
  function ExpectedCells(cells: seq<Value>, items: seq<Value>, addNewGroup: bool, isGrouped: bool): seq<Value>
    requires cells != [] && cells[|cells| - 1].List?
  {
    var k := |cells| - 1;
    if !addNewGroup then cells[..k] + [List(cells[k].items + items)]
    else if isGrouped then cells + [List(items)]
    else cells + Singletons(items)
  }

  lemma {:induction false} PackConcat(a: seq<Row>, b: seq<Row>)
    ensures PackGroup(a + b) == List(PackGroup(a).items + PackGroup(b).items)
  {
    assert Payloads(a + b) == Payloads(a) + Payloads(b);
  }

  lemma {:induction false} SingletonsMore(front: seq<Row>, r: Row)
    ensures Singletons(RowsToDicts(Payloads(front + [r]))) ==
      Singletons(RowsToDicts(Payloads(front))) + [List([Dict(Payload(r))])]
  {
    assert Payloads(front + [r]) == Payloads(front) + [Payload(r)];
  }

  lemma {:induction false} FreshRuns(s: seq<Row>, block: seq<Row>, first: int)
    requires s == [] || Id(s[|s| - 1]) < first
    requires forall i :: 0 <= i < |block| ==> Id(block[i]) == first + i
    ensures PackGroups(Runs(s + block)) == PackGroups(Runs(s)) + Singletons(RowsToDicts(Payloads(block)))
  {
    if block == [] {
      assert s + block == s;
    } else {
      var front, r := block[..|block| - 1], block[|block| - 1];
      assert block == front + [r];
      FreshRuns(s, front, first);
      FreshRunsStep(s, block, front, r, first);
    }
  }

  lemma {:induction false} FreshRunsStep(s: seq<Row>, block: seq<Row>, front: seq<Row>, r: Row, first: int)
    requires s == [] || Id(s[|s| - 1]) < first
    requires block == front + [r] && forall i :: 0 <= i < |block| ==> Id(block[i]) == first + i
    requires PackGroups(Runs(s + front)) == PackGroups(Runs(s)) + Singletons(RowsToDicts(Payloads(front)))
    ensures PackGroups(Runs(s + block)) == PackGroups(Runs(s)) + Singletons(RowsToDicts(Payloads(block)))
  {
    hide Runs, PackGroups, Singletons, Payloads, RowsToDicts;
    CountedUp(s, block, front, r, first);
    FreshRun(s + front, r);
    SingletonsMore(front, r);
    assert s + block == (s + front) + [r];
  }

  lemma {:induction false} CountedUp(s: seq<Row>, block: seq<Row>, front: seq<Row>, r: Row, first: int)
    requires s == [] || Id(s[|s| - 1]) < first
    requires block == front + [r] && forall i :: 0 <= i < |block| ==> Id(block[i]) == first + i
    ensures var u := s + front; u == [] || Id(u[|u| - 1]) != Id(r)
  {
    assert block[|front|] == r;
    assert front != [] ==> block[|front| - 1] == front[|front| - 1];
  }

  lemma {:induction false} FreshRun(s: seq<Row>, r: Row)
    requires s == [] || Id(s[|s| - 1]) != Id(r)
    ensures PackGroups(Runs(s + [r])) == PackGroups(Runs(s)) + [List([Dict(Payload(r))])]
  {
    RunsWithBlock(s, [r], Id(r));
    GroupAdded(Runs(s), r);
  }

  // ---- the theorems ----

  lemma {:induction false} PackableIds(t: ArrowTable)
    requires Packable(t)
    ensures forall r: Row :: r in t.rows ==> GROUP in r && r[GROUP].Int?
    ensures MaxId(t.rows).Some?
    ensures forall r :: r in t.rows ==> Id(r) <= MaxId(t.rows).value
    ensures StableSort(t.rows) != [] && Id(StableSort(t.rows)[|StableSort(t.rows)| - 1]) == MaxId(t.rows).value
  {
    MaxIsLastId(t.rows);
    LastSortedId(t.rows, MaxId(t.rows).value);
  }

  /** The groups of a table after new rows with ids not below the largest one. */
  lemma {:induction false} GroupsAfter(rows: seq<Row>, added: seq<Row>)
    requires Ascending(added) && forall x, y :: x in rows && y in added ==> Id(x) <= Id(y)
    ensures GroupBy(rows + added) == Runs(StableSort(rows) + added)
    ensures GroupBy(rows) == Runs(StableSort(rows))
  {
    SortAppended(rows, added);
    GroupByOfSorted(rows);
    GroupByOfSorted(rows + added);
  }

  /** The mode append infers, and the ids of its new rows relative to the largest id. */
  lemma {:induction false} InferredMode(t: ArrowTable, elems: seq<Value>, addNewGroup: bool, isGrouped: bool)
    returns (mode: AddMode)
    requires Packable(t) && AllDicts(elems) && MaxId(t.rows).Some? && MaxId(t.rows).value != -1
    ensures AddModeFor(t, addNewGroup, isGrouped, -1) == Ok(mode) == Ok(ModeFrom(MaxId(t.rows).value, addNewGroup, isGrouped))
    ensures (mode.SharedGroup? && mode.id.Int?) || mode.FreshGroups?
    ensures forall i :: 0 <= i < |elems| ==>
      Id(NewRows(elems, mode)[i]) ==
      MaxId(t.rows).value + if !addNewGroup then 0 else if isGrouped then 1 else 1 + i
    ensures RowsToDicts(Payloads(NewRows(elems, mode))) == PayloadItems(elems)
  {
    mode := ModeFrom(MaxId(t.rows).value, addNewGroup, isGrouped);
    NewRowsMarked(elems, mode);
  }

  lemma {:induction false} AppendedStaysPackable(t: ArrowTable, elems: seq<Value>, mode: AddMode)
    requires Packable(t) && Matching(elems, t)
    requires (mode.SharedGroup? && mode.id.Int?) || mode.FreshGroups?
    ensures Packable(ArrowTable(t.cols, t.rows + NewRows(elems, mode)))
  {
    NewRowsTable(t, elems, mode);
    forall r: Row | r in t.rows + NewRows(elems, mode) ensures r.Keys == t.cols && r[GROUP].Int? {
      if r !in t.rows {
        var i :| 0 <= i < |elems| && NewRows(elems, mode)[i] == r;
      }
    }
  }

  /** The new packed rows after an append, by the three ways of choosing group ids. */
  lemma {:induction false} CellsAfter(sorted: seq<Row>, added: seq<Row>, addNewGroup: bool, isGrouped: bool)
    requires sorted != [] && added != []
    requires forall i :: 0 <= i < |added| ==>
      Id(added[i]) == Id(sorted[|sorted| - 1]) + if !addNewGroup then 0 else if isGrouped then 1 else 1 + i
    ensures Runs(sorted) != []
    ensures PackGroups(Runs(sorted + added)) ==
      ExpectedCells(PackGroups(Runs(sorted)), RowsToDicts(Payloads(added)), addNewGroup, isGrouped)
  {
    hide Runs, Payloads, RowsToDicts;
    RunsNonEmpty(sorted);
    var runs := Runs(sorted);
    if !addNewGroup {
      RunsExtended(sorted, added);
      PackConcat(runs[|runs| - 1], added);
    } else if isGrouped {
      RunsWithBlock(sorted, added, Id(sorted[|sorted| - 1]) + 1);
    } else {
      FreshRuns(sorted, added, Id(sorted[|sorted| - 1]) + 1);
    }
  }

  lemma {:induction false} AppendedCells(rows: seq<Row>, added: seq<Row>, g: int, addNewGroup: bool, isGrouped: bool)
    requires StableSort(rows) != [] && Id(StableSort(rows)[|StableSort(rows)| - 1]) == g
    requires added != [] && forall r :: r in rows ==> Id(r) <= g
    requires forall i :: 0 <= i < |added| ==>
      Id(added[i]) == g + if !addNewGroup then 0 else if isGrouped then 1 else 1 + i
    ensures GroupBy(rows) != []
    ensures PackGroups(GroupBy(rows + added)) ==
      ExpectedCells(PackGroups(GroupBy(rows)), RowsToDicts(Payloads(added)), addNewGroup, isGrouped)
  {
    GroupsAfter(rows, added);
    CellsAfter(StableSort(rows), added, addNewGroup, isGrouped);
  }

  /**
   * Appending elements and packing is packing and then extending the packed rows: without a new group
   * the last packed row grows, with a shared one a row is added, otherwise one row per element.
   */
  lemma {:induction false} AppendThenPack(t: ArrowTable, elems: seq<Value>, addNewGroup: bool, isGrouped: bool)
    requires Packable(t) && Matching(elems, t) && MaxId(t.rows) != Some(-1)
    ensures GroupBy(t.rows) != []
    ensures var a := Appended(t, List(elems), addNewGroup, isGrouped);
      && a.Ok? && Packable(a.value)
      && |a.value.rows| == |t.rows| + |elems|
      && PackGroups(GroupBy(a.value.rows)) ==
         ExpectedCells(PackGroups(GroupBy(t.rows)), PayloadItems(elems), addNewGroup, isGrouped)
  {
    PackableIds(t);
    var mode := InferredMode(t, elems, addNewGroup, isGrouped);
    AppendedRows(t, elems, mode, addNewGroup, isGrouped);
    AppendedStaysPackable(t, elems, mode);
    AppendedCells(t.rows, NewRows(elems, mode), MaxId(t.rows).value, addNewGroup, isGrouped);
  }

  /** The same elements in the form a packed table takes them. */
  function PackedElem(items: seq<Value>, isGrouped: bool): Value {
    if isGrouped then List(items)
    else List(seq(|items|, i requires 0 <= i < |items| => List([items[i]])))
  }

  lemma {:induction false} AppendToPacked(cells: seq<Value>, items: seq<Value>, isGrouped: bool)
    requires cells != [] && cells[|cells| - 1].List? && items != [] && AllDicts(items)
    ensures Appended(FromPacked(cells), PackedElem(items, isGrouped), false, true) ==
      Ok(FromPacked(ExpectedCells(cells, items, true, isGrouped)))
  {
    var added := if isGrouped then [List(items)] else Singletons(items);
    assert NewTable(PackedElem(items, isGrouped), ToPacked) == Ok(FromPacked(added)) by {
      assert !isGrouped ==> Singletons(items)[0] == List([items[0]]);
    }
    var rows := FromPacked(cells).rows + FromPacked(added).rows;
    SameColumns(rows, {PACK});
    assert {PACK} + {PACK} == {PACK};
    assert rows == FromPacked(cells + added).rows;
  }

  /** Appending new groups to a table and packing it, or packing it and appending: the same table. */
  lemma {:induction false} AppendCommutesWithPack(t: ArrowTable, elems: seq<Value>, isGrouped: bool,
                                                 batchSize: int, first: Schedule, second: Schedule)
    requires Packable(t) && Matching(elems, t) && MaxId(t.rows) != Some(-1)
    requires |t.rows| + |elems| <= batchSize && first.handed > 0 && second.handed > 0
    ensures Appended(t, List(elems), true, isGrouped).Ok?
    ensures Ok(PackOutcome(Appended(t, List(elems), true, isGrouped).value, batchSize, first).table) ==
      Appended(PackOutcome(t, batchSize, second).table, PackedElem(PayloadItems(elems), isGrouped), false, true)
  {
    hide GroupBy, ExpectedCells, PackedElem, Appended, PackOutcome;
    AppendThenPack(t, elems, true, isGrouped);
    PackFits(t, batchSize, second);
    PackFits(Appended(t, List(elems), true, isGrouped).value, batchSize, first);
    AppendToPacked(PackGroups(GroupBy(t.rows)), PayloadItems(elems), isGrouped);
  }

  // ---- where the group id -1 gets in the way ----

  lemma {:induction false} UnmarkedRowsAreNull(t: ArrowTable, elems: seq<Value>)
    requires Packable(t) && elems != [] && AllDicts(elems) && GROUP !in elems[0].fields
    ensures ConcatPromote(t, FromPyList(NewRows(elems, Unmarked))).HasNull(GROUP)
  {
    var rows := FromPyList(NewRows(elems, Unmarked));
    var all := ConcatPromote(t, rows);
    assert NewRows(elems, Unmarked)[0] == elems[0].fields;
    var i := |t.rows|;
    assert (t.rows + rows.rows)[i] == rows.rows[0];
    assert all.rows[i] in all.rows && all.rows[i][GROUP] == Null;
  }

  lemma {:induction false} AppendUnmarked(t: ArrowTable, elems: seq<Value>, addNewGroup: bool, isGrouped: bool,
                                         batchSize: int, schedule: Schedule)
    requires Packable(t) && Matching(elems, t) && GROUP !in elems[0].fields && MaxId(t.rows) == Some(-1)
    ensures var a := Appended(t, List(elems), addNewGroup, isGrouped);
      a.Ok? && a.value.HasNull(GROUP) && PackOutcome(a.value, batchSize, schedule) == Outcome(Ok(false), a.value)
  {
    hide Marked, FromPyList, PackOutcome, AddModeFor, NewTable;
    UnmarkedRowsAreNull(t, elems);
    UnmarkedMode(t, elems, addNewGroup, isGrouped);
    var all := ConcatPromote(t, FromPyList(NewRows(elems, Unmarked)));
    SubsetSize(t.cols, all.cols);
    RefusesNull(all, batchSize, schedule);
  }

  lemma {:induction false} UnmarkedMode(t: ArrowTable, elems: seq<Value>, addNewGroup: bool, isGrouped: bool)
    requires t.Grouped() && MaxId(t.rows) == Some(-1) && elems != [] && AllDicts(elems)
    ensures AddModeFor(t, addNewGroup, isGrouped, -1) == Ok(Unmarked)
    ensures NewTable(List(elems), Unmarked) == Ok(FromPyList(NewRows(elems, Unmarked)))
  {}

  /** Pack refuses a table with a null group id that has another column. */
  lemma {:induction false} RefusesNull(t: ArrowTable, batchSize: int, schedule: Schedule)
    requires GROUP in t.cols && |t.cols| > 1 && t.HasNull(GROUP)
    ensures PackOutcome(t, batchSize, schedule) == Outcome(Ok(false), t)
  {}

  /**
   * New elements get a group id exactly when the largest id is not -1; otherwise the table has a null
   * group id afterwards, and pack refuses it.
   */
  lemma {:induction false} AppendKeepsGroups(t: ArrowTable, elems: seq<Value>, addNewGroup: bool, isGrouped: bool,
                                            batchSize: int, schedule: Schedule)
    requires Packable(t) && Matching(elems, t) && GROUP !in elems[0].fields
    ensures var a := Appended(t, List(elems), addNewGroup, isGrouped);
      && a.Ok?
      && (a.value.HasNull(GROUP) <==> MaxId(t.rows) == Some(-1))
      && (MaxId(t.rows) == Some(-1) ==> PackOutcome(a.value, batchSize, schedule) == Outcome(Ok(false), a.value))
  {
    hide GroupBy, StableSort, PackGroups, ExpectedCells, PayloadItems, Appended, PackOutcome;
    if MaxId(t.rows) == Some(-1) {
      AppendUnmarked(t, elems, addNewGroup, isGrouped, batchSize, schedule);
    } else {
      AppendThenPack(t, elems, addNewGroup, isGrouped);
    }
  }

  lemma {:induction false} ConcatMatching(a: seq<Row>, b: seq<Row>, cols: set<Column>)
    requires forall i :: 0 <= i < |a| ==> a[i].Keys == cols
    requires forall i :: 0 <= i < |b| ==> b[i].Keys == cols
    ensures ConcatPromote(ArrowTable(cols, a), ArrowTable(cols, b)) == ArrowTable(cols, a + b)
    ensures forall i :: 0 <= i < |a + b| ==> (a + b)[i].Keys == cols
  {
    SameColumns(a + b, cols);
    assert cols + cols == cols;
  }

  /** The ids an insert asks for: the given one, or counted up from it. */
  function InsertMode(groupId: int, isGrouped: bool): AddMode {
    if isGrouped then SharedGroup(Int(groupId)) else FreshGroups(groupId)
  }

  /**
   * An insert with an explicit group id puts the rows in place under that id, except that the id 0
   * is taken for "no group".
   */
  lemma {:induction false} InsertKeepsGroups(t: ArrowTable, elems: seq<Value>, index: int, groupId: int,
                                            addNewGroup: bool, isGrouped: bool)
    requires Packable(t) && Matching(elems, t) && GROUP !in elems[0].fields
    requires 0 <= index <= |t.rows| && groupId != -1
    ensures var a := Inserted(t, List(elems), index, groupId, addNewGroup, isGrouped);
      && a.Ok?
      && (a.value.HasNull(GROUP) <==> groupId == 0)
      && (groupId != 0 ==>
            a.value == ArrowTable(t.cols, t.rows[..index] + NewRows(elems, InsertMode(groupId, isGrouped)) + t.rows[index..]))
  {
    hide NewRows;
    assert AddModeFor(t, addNewGroup, isGrouped, groupId) ==
           Ok(if groupId == 0 then Unmarked else InsertMode(groupId, isGrouped));
    if groupId == 0 {
      InsertUnmarked(t, elems, index);
    } else {
      InsertMarked(t, elems, index, InsertMode(groupId, isGrouped));
    }
  }

  lemma {:induction false} InsertMarked(t: ArrowTable, elems: seq<Value>, index: nat, mode: AddMode)
    requires Packable(t) && Matching(elems, t) && index <= |t.rows|
    requires (mode.SharedGroup? && mode.id.Int?) || mode.FreshGroups?
    ensures var all := ArrowTable(t.cols, t.rows[..index] + NewRows(elems, mode) + t.rows[index..]);
      && NewTable(List(elems), mode).Ok?
      && !all.HasNull(GROUP)
      && ConcatPromote(ConcatPromote(ArrowTable(t.cols, t.rows[..index]), NewTable(List(elems), mode).value),
                       ArrowTable(t.cols, t.rows[index..])) == all
  {
    NewRowsTable(t, elems, mode);
    var added := NewRows(elems, mode);
    forall i | 0 <= i < |t.rows| ensures t.rows[i].Keys == t.cols { assert t.rows[i] in t.rows; }
    ConcatMatching(t.rows[..index], added, t.cols);
    ConcatMatching(t.rows[..index] + added, t.rows[index..], t.cols);
    AppendedStaysPackable(t, elems, mode);
    forall r: Row | r in t.rows[..index] + added + t.rows[index..] ensures r[GROUP].Int? {
      assert r in t.rows + added;
    }
  }

  lemma {:induction false} InsertUnmarked(t: ArrowTable, elems: seq<Value>, index: nat)
    requires Packable(t) && Matching(elems, t) && GROUP !in elems[0].fields && index <= |t.rows|
    ensures var added := FromPyList(NewRows(elems, Unmarked));
      ConcatPromote(ConcatPromote(ArrowTable(t.cols, t.rows[..index]), added), ArrowTable(t.cols, t.rows[index..]))
        .HasNull(GROUP)
  {
    var added := FromPyList(NewRows(elems, Unmarked));
    var front := ConcatPromote(ArrowTable(t.cols, t.rows[..index]), added);
    assert NewRows(elems, Unmarked)[0] == elems[0].fields;
    assert (t.rows[..index] + added.rows)[index] == added.rows[0];
    assert front.rows[index][GROUP] == Null;
    var all := ConcatPromote(front, ArrowTable(t.cols, t.rows[index..]));
    assert (front.rows + t.rows[index..])[index] == front.rows[index];
    assert all.rows[index] in all.rows && all.rows[index][GROUP] == Null;
  }
}
