/** Pack and unpack undo each other, up to the normal form of the rows. */
module RoundTrip {
  import opened Options
  import opened Rows
  import opened Sequences
  import opened Grouping
  import opened Tables
  import opened MapperReader
  import opened PackLaws
  import opened UnpackLaws

  // ---- unpacking what was packed ----

  /** Sorted rows, with payload as packed and group numbers counted from zero. */
  function Normalised(s: seq<Row>): seq<Row> {
    seq(|s|, i requires 0 <= i < |s| => WithGroup(Payload(s[i]), Ranks(s)[i]))
  }

  lemma {:induction false} RanksCountRuns(s: seq<Row>)
    requires s != []
    ensures Runs(s) != [] && Ranks(s)[|s| - 1] == |Runs(s)| - 1
  {
    if |s| > 1 {
      var front := s[..|s| - 1];
      RanksCountRuns(front);
      assert front[|front| - 1] == s[|s| - 2];
    } else {
      assert s[..0] == [];
    }
  }

  lemma {:induction false} NormalisedMore(s: seq<Row>)
    requires s != []
    ensures var n := |s| - 1;
      Normalised(s) == Normalised(s[..n]) + [WithGroup(Payload(s[n]), Ranks(s)[n])]
  {
    var n := |s| - 1;
    assert Ranks(s)[..n] == Ranks(s[..n]);
  }

  lemma {:induction false} DictsMore(rows: seq<Row>, r: Row)
    ensures RowsToDicts(rows + [r]) == RowsToDicts(rows) + [Dict(r)]
  {}

  lemma {:induction false} CellGrows(items: seq<Value>, d: Row, g: int)
    requires AllDicts(items)
    ensures UnpackCell(List(items + [Dict(d)]), g) == UnpackCell(List(items), g) + [Dict(WithGroup(d, g))]
  {
    assert Spreadable(List(items + [Dict(d)]));
  }

  lemma {:induction false} CellsMore(cells: seq<Value>, v: Value)
    ensures UnpackCells(cells + [v], 0) == UnpackCells(cells, 0) + UnpackCell(v, |cells|)
  {
    UnpackOneMore(cells + [v], 0);
    assert (cells + [v])[..|cells|] == cells;
  }

  lemma {:induction false} CellsLast(cells: seq<Value>)
    requires cells != []
    ensures var k := |cells| - 1;
      UnpackCells(cells, 0) == UnpackCells(cells[..k], 0) + UnpackCell(cells[k], k)
  {
    UnpackOneMore(cells, 0);
  }

  lemma {:induction false} LastCellGrows(cells: seq<Value>, d: Row)
    requires cells != [] && cells[|cells| - 1].List? && AllDicts(cells[|cells| - 1].items)
    ensures var k := |cells| - 1;
      UnpackCells(cells[..k] + [List(cells[k].items + [Dict(d)])], 0) ==
      UnpackCells(cells, 0) + [Dict(WithGroup(d, k))]
  {
    var k := |cells| - 1;
    CellsLast(cells);
    CellsMore(cells[..k], List(cells[k].items + [Dict(d)]));
    CellGrows(cells[k].items, d, k);
  }

  lemma {:induction false} NewLastCell(cells: seq<Value>, d: Row)
    ensures UnpackCells(cells + [List([Dict(d)])], 0) == UnpackCells(cells, 0) + [Dict(WithGroup(d, |cells|))]
  {
    CellsMore(cells, List([Dict(d)]));
    CellGrows([], d, |cells|);
    assert [] + [Dict(d)] == [Dict(d)];
  }

  /** One more row adds one more element, under the number of the last packed row. */
  lemma {:induction false} UnpackMore(front: seq<Row>, r: Row)
    ensures Runs(front + [r]) != []
    ensures UnpackCells(PackGroups(Runs(front + [r])), 0) ==
      UnpackCells(PackGroups(Runs(front)), 0) + [Dict(WithGroup(Payload(r), |Runs(front + [r])| - 1))]
  {
    hide Runs, UnpackCells, PackGroups;
    RunsMore(front, r);
    UnpackMoreGroups(Runs(front), r, front != [] && Id(front[|front| - 1]) == Id(r));
  }

  lemma {:induction false} UnpackMoreGroups(groups: seq<seq<Row>>, r: Row, sameGroup: bool)
    requires sameGroup ==> groups != []
    ensures var after := if sameGroup then WithRow(groups, r, true) else groups + [[r]];
      UnpackCells(PackGroups(after), 0) ==
      UnpackCells(PackGroups(groups), 0) + [Dict(WithGroup(Payload(r), |after| - 1))]
  {
    if sameGroup {
      LastGroupGrows(groups, r);
      LastCellGrows(PackGroups(groups), Payload(r));
    } else {
      GroupAdded(groups, r);
      NewLastCell(PackGroups(groups), Payload(r));
    }
  }

  /** Unpacking the packed runs of any row sequence gives the rows back in order. */
  lemma {:induction false} UnpackRuns(s: seq<Row>)
    ensures UnpackCells(PackGroups(Runs(s)), 0) == RowsToDicts(Normalised(s))
  {
    if s == [] {
      assert Blocks(PackGroups(Runs(s)), 0) == [];
    } else {
      var front, r := s[..|s| - 1], s[|s| - 1];
      assert s == front + [r];
      UnpackRuns(front);
      UnpackRunsStep(s, front, r);
    }
  }

  lemma {:induction false} UnpackRunsStep(s: seq<Row>, front: seq<Row>, r: Row)
    requires s == front + [r]
    requires UnpackCells(PackGroups(Runs(front)), 0) == RowsToDicts(Normalised(front))
    ensures UnpackCells(PackGroups(Runs(s)), 0) == RowsToDicts(Normalised(s))
  {
    hide UnpackCells, PackGroups, Runs, Ranks, Normalised, RowsToDicts, Payload;
    var last := WithGroup(Payload(r), |Runs(s)| - 1);
    UnpackMore(front, r);
    assert Normalised(s) == Normalised(front) + [last] by {
      RanksCountRuns(s);
      NormalisedMore(s);
      assert s[..|s| - 1] == front;
    }
    DictsMore(Normalised(front), last);
  }

  function PayloadKeys(t: ArrowTable): set<Column> { t.cols - {GROUP, INDEX} }

  lemma {:induction false} PackedGroupOver(g: seq<Row>, cols: set<Column>)
    requires forall r :: r in g ==> r.Keys == cols
    ensures CellOver(PackGroup(g), cols - {GROUP, INDEX})
  {
    var keys := cols - {GROUP, INDEX};
    forall i | 0 <= i < |g| ensures Payload(g[i]).Keys == keys {
      assert g[i] in g;
      assert (g[i] - {INDEX, GROUP}).Keys == keys;
    }
  }

  lemma {:induction false} PackedIsUnpackable(t: ArrowTable)
    requires Packable(t)
    ensures Unpackable(PackedTable(t.rows), PayloadKeys(t))
    ensures Cells(PackedTable(t.rows)) == PackGroups(GroupBy(t.rows))
  {
    hide Runs, Ids, Select, StableSort, Payload;
    var groups := GroupBy(t.rows);
    GroupsJoined(t.rows);
    StableSortSameRows(t.rows);
    forall k | 0 <= k < |groups| ensures CellOver(PackGroups(groups)[k], PayloadKeys(t)) {
      SelectMembers(t.rows, Ids(t.rows)[k]);
      PackedGroupOver(groups[k], t.cols);
    }
    assert groups != [];
    assert |PackGroup(groups[0]).items| == |groups[0]|;
    assert Cells(PackedTable(t.rows)) == PackGroups(groups);
  }

  /** The sorted rows in normal form: numbered groups, payloads as packed. */
  function NormalTable(t: ArrowTable): ArrowTable {
    ArrowTable(t.cols - {INDEX}, Normalised(StableSort(t.rows)))
  }

  /**
   * Unpacking a packed table gives back every row, stably sorted by group, with the groups
   * renumbered from zero and string responses in their wrapped form, if both slices are handed on.
   */
  lemma {:induction false} UnpackAfterPack(t: ArrowTable, packBatch: int, packed: Schedule, unpackBatch: int, unpacked: Schedule)
    requires Packable(t) && |t.rows| <= packBatch && |GroupBy(t.rows)| <= unpackBatch
    requires packed.handed > 0 && unpacked.handed > 0
    ensures UnpackOutcome(PackOutcome(t, packBatch, packed).table, unpackBatch, unpacked) ==
      Outcome(Ok(true), NormalTable(t))
  {
    PackFits(t, packBatch, packed);
    PackedIsUnpackable(t);
    UnpackFits(PackedTable(t.rows), PayloadKeys(t), unpackBatch, unpacked);
    UnpackedGroups(t);
  }

  lemma {:induction false} UnpackedGroups(t: ArrowTable)
    requires Packable(t)
    requires forall i :: 0 <= i < |GroupBy(t.rows)| ==> CellOver(PackGroups(GroupBy(t.rows))[i], PayloadKeys(t))
    ensures Unpacked(PackGroups(GroupBy(t.rows)), PayloadKeys(t)) == NormalTable(t)
  {
    var rows := Normalised(StableSort(t.rows));
    assert UnpackCells(PackGroups(GroupBy(t.rows)), 0) == RowsToDicts(rows) by {
      GroupByOfSorted(t.rows);
      UnpackRuns(StableSort(t.rows));
    }
    UnpackedOver(PackGroups(GroupBy(t.rows)), 0, PayloadKeys(t));
    DictsThere(rows);
    assert PayloadKeys(t) + {GROUP} == t.cols - {INDEX};
  }

  lemma {:induction false} DictsThere(rows: seq<Row>)
    ensures DictsToRows(RowsToDicts(rows)) == rows
  {}

  /**
   * A column `_index` of the caller's own is lost: every element of the packed table has the columns of
   * the table but `_group` and `_index`, and unpacking brings back all but `_index`.
   */
  lemma {:induction false} PackDropsIndex(t: ArrowTable, packBatch: int, packed: Schedule, unpackBatch: int, unpacked: Schedule)
    requires Packable(t) && |t.rows| <= packBatch && |GroupBy(t.rows)| <= unpackBatch
    requires packed.handed > 0 && unpacked.handed > 0
    ensures var p := PackOutcome(t, packBatch, packed).table;
      forall i :: 0 <= i < |Cells(p)| ==> CellOver(Cells(p)[i], t.cols - {GROUP, INDEX})
    ensures UnpackOutcome(PackOutcome(t, packBatch, packed).table, unpackBatch, unpacked).table.cols == t.cols - {INDEX}
  {
    PackFits(t, packBatch, packed);
    PackedIsUnpackable(t);
    UnpackAfterPack(t, packBatch, packed, unpackBatch, unpacked);
  }

  // ---- packing what was unpacked ----

  function PayloadItems(items: seq<Value>): seq<Value>
    requires AllDicts(items)
  {
    seq(|items|, i requires 0 <= i < |items| => Dict(Payload(items[i].fields)))
  }

  /** The packed rows with elements in normal form, empty rows left out. */
  function NonEmptyCells(cells: seq<Value>): seq<Value> {
    if cells == [] then []
    else
      var n := |cells| - 1;
      NonEmptyCells(cells[..n]) +
      (if Spreadable(cells[n]) && cells[n].items != [] then [List(PayloadItems(cells[n].items))] else [])
  }

  lemma {:induction false} RunsWithBlock(s: seq<Row>, block: seq<Row>, g: int)
    requires s == [] || Id(s[|s| - 1]) != g
    requires block != [] && forall r :: r in block ==> Id(r) == g
    ensures Runs(s + block) == Runs(s) + [block]
  {
    var front, r := block[..|block| - 1], block[|block| - 1];
    assert (s + block)[..|s + block| - 1] == s + front;
    assert block == front + [r];
    if front == [] {
      assert s + front == s;
    } else {
      assert (s + front)[|s + front| - 1] == front[|front| - 1];
      assert front[|front| - 1] in block && r in block;
      RunsWithBlock(s, front, g);
    }
  }

  lemma {:induction false} UnpackedBlock(v: Value, g: int)
    requires Spreadable(v)
    ensures AllDicts(UnpackCell(v, g))
    ensures var block := DictsToRows(UnpackCell(v, g));
      && (forall r :: r in block ==> Id(r) == g)
      && PackGroup(block) == List(PayloadItems(v.items))
  {
    var block := DictsToRows(UnpackCell(v, g));
    forall i | 0 <= i < |block| ensures Id(block[i]) == g && Payload(block[i]) == Payload(v.items[i].fields) {
      PayloadIgnoresMarks(v.items[i].fields, g, 0);
    }
  }

  lemma {:induction false} RowsConcat(a: seq<Value>, b: seq<Value>)
    requires AllDicts(a) && AllDicts(b)
    ensures AllDicts(a + b)
    ensures DictsToRows(a + b) == DictsToRows(a) + DictsToRows(b)
  {}

  ghost predicate RunsOfCells(dicts: seq<Value>, cells: seq<Value>) {
    && AllDicts(dicts)
    && Ascending(DictsToRows(dicts))
    && (forall r :: r in DictsToRows(dicts) ==> Id(r) < |cells|)
    && PackGroups(Runs(DictsToRows(dicts))) == NonEmptyCells(cells)
  }

  lemma {:induction false} UnpackedRuns(cells: seq<Value>)
    requires forall i :: 0 <= i < |cells| ==> Spreadable(cells[i])
    ensures RunsOfCells(UnpackCells(cells, 0), cells)
  {
    if cells == [] {
      assert Blocks(cells, 0) == [];
    } else {
      var n := |cells| - 1;
      UnpackedRuns(cells[..n]);
      CellsLast(cells);
      NextCell(UnpackCells(cells[..n], 0), cells);
    }
  }

  lemma {:induction false} NextCell(dicts: seq<Value>, cells: seq<Value>)
    requires cells != [] && Spreadable(cells[|cells| - 1])
    requires RunsOfCells(dicts, cells[..|cells| - 1])
    ensures RunsOfCells(dicts + UnpackCell(cells[|cells| - 1], |cells| - 1), cells)
  {
    var n := |cells| - 1;
    var added := UnpackCell(cells[n], n);
    UnpackedBlock(cells[n], n);
    RowsConcat(dicts, added);
    if added == [] {
      assert dicts + added == dicts;
    } else {
      BlockAfter(DictsToRows(dicts), DictsToRows(added), n);
    }
  }

  lemma {:induction false} BlockAfter(rows: seq<Row>, block: seq<Row>, g: int)
    requires Ascending(rows) && forall r :: r in rows ==> Id(r) < g
    requires block != [] && forall r :: r in block ==> Id(r) == g
    ensures Ascending(rows + block)
    ensures PackGroups(Runs(rows + block)) == PackGroups(Runs(rows)) + [PackGroup(block)]
  {
    assert rows != [] ==> rows[|rows| - 1] in rows;
    RunsWithBlock(rows, block, g);
  }

  /**
   * Packing an unpacked table gives back the packed rows, without the empty ones and with string
   * responses in their wrapped form.
   */
  lemma {:induction false} PackAfterUnpack(p: ArrowTable, keys: set<Column>, unpackBatch: int, unpacked: Schedule,
                                          packBatch: int, packed: Schedule)
    requires Unpackable(p, keys) && keys - {GROUP} != {}
    requires |Cells(p)| <= unpackBatch && |UnpackCells(Cells(p), 0)| <= packBatch
    requires unpacked.handed > 0 && packed.handed > 0
    ensures PackOutcome(UnpackOutcome(p, unpackBatch, unpacked).table, packBatch, packed) ==
      Outcome(Ok(true), FromPacked(NonEmptyCells(Cells(p))))
  {
    UnpackFits(p, keys, unpackBatch, unpacked);
    UnpackedIsPackable(Cells(p), keys);
    var u := Unpacked(Cells(p), keys);
    PackFits(u, packBatch, packed);
    UnpackedRuns(Cells(p));
    RunsAreGroups(u.rows);
  }

  lemma {:induction false} UnpackedIsPackable(cells: seq<Value>, keys: set<Column>)
    requires PackedOver(cells, keys) && keys - {GROUP} != {}
    ensures Packable(Unpacked(cells, keys))
  {
    var u := Unpacked(cells, keys);
    UnpackedOver(cells, 0, keys);
    assert CellOver(cells[0], keys) && Blocks(cells, 0)[0] != [];
    JoinEmpty(Blocks(cells, 0));
    UnpackedMarks(cells);
    var c :| c in keys - {GROUP};
    assert {c, GROUP} <= u.cols;
    assert |u.cols| >= |{c, GROUP}| by { SubsetSize({c, GROUP}, u.cols); }
  }

  lemma {:induction false} SubsetSize<T>(a: set<T>, b: set<T>)
    requires a <= b
    ensures |a| <= |b|
  {
    assert |b - a| + |a| == |b| by { assert (b - a) + a == b && (b - a) !! a; }
  }

  lemma {:induction false} UnpackedMarks(cells: seq<Value>)
    ensures forall d :: d in UnpackCells(cells, 0) ==> d.Dict? && GROUP in d.fields && d.fields[GROUP].Int?
  {
    if cells == [] {
      assert Blocks(cells, 0) == [];
    } else {
      UnpackedMarks(cells[..|cells| - 1]);
      CellsLast(cells);
    }
  }
}
