/** What stands in the cells after a pack and in the rows after an unpack, column by column. */
module PackedCells {
  import opened Options
  import opened Rows
  import opened Grouping
  import opened MapperReader
  import opened Tables
  import opened PackLaws
  import opened UnpackLaws

  // ---- the cells of a packed table ----

  /** The value of a column inside a packed cell: a string response stands in two lists, all else is kept. */
  function PackedValue(c: Column, v: Value): Value {
    match (c, v)
    case (RESPONSE, Str(s)) => List([List([Str(s)])])
    case _ => v
  }

  /** The element a row is packed as: its columns but `_group` and `_index`. */
  ghost predicate PackedFrom(v: Value, r: Row) {
    && v.Dict?
    && (forall c :: c in v.fields <==> c in r && c != GROUP && c != INDEX)
    && forall c :: c in v.fields ==> v.fields[c] == PackedValue(c, r[c])
  }

  lemma {:induction false} PayloadPacked(r: Row)
    ensures PackedFrom(Dict(Payload(r)), r)
  {}

  lemma {:induction false} CellOfGroup(g: seq<Row>)
    ensures PackGroup(g).List? && |PackGroup(g).items| == |g|
    ensures forall j :: 0 <= j < |g| ==> PackedFrom(PackGroup(g).items[j], g[j])
  {
    forall j | 0 <= j < |g| ensures PackedFrom(PackGroup(g).items[j], g[j]) {
      PayloadPacked(g[j]);
      assert PackGroup(g).items[j] == Dict(Payload(g[j]));
    }
  }

  /** The cells of the packed table: the k-th one is made of the rows with the k-th smallest id, in their order. */
  lemma {:induction false} PackedElements(t: ArrowTable, batchSize: int, schedule: Schedule)
    requires Packable(t) && |t.rows| <= batchSize && schedule.handed > 0
    ensures var o, ids := PackOutcome(t, batchSize, schedule), Ids(t.rows);
      && o.Outcome? && o.result == Ok(true) && o.table.cols == {PACK}
      && |Cells(o.table)| == |ids|
      && forall k :: 0 <= k < |ids| ==>
           var cell, group := Cells(o.table)[k], Select(t.rows, ids[k]);
           && cell.List? && |cell.items| == |group|
           && forall j :: 0 <= j < |group| ==> PackedFrom(cell.items[j], group[j])
  {
    hide PackOutcome, PackGroup, PackedFrom;
    PackFits(t, batchSize, schedule);
    var ids := Ids(t.rows);
    var cells := Cells(PackedTable(t.rows));
    assert cells == PackGroups(GroupBy(t.rows));
    forall k | 0 <= k < |ids|
      ensures var group := Select(t.rows, ids[k]);
        && cells[k].List? && |cells[k].items| == |group|
        && forall j :: 0 <= j < |group| ==> PackedFrom(cells[k].items[j], group[j])
    {
      CellOfGroup(Select(t.rows, ids[k]));
    }
  }

  /** Pack returns False, and leaves the table alone, for a single column and for null group ids; it raises without a group column. */
  lemma {:induction false} PackRefuses(t: ArrowTable, batchSize: int, schedule: Schedule)
    requires t.Valid()
    ensures var o := PackOutcome(t, batchSize, schedule);
      && (o.Outcome? && o.result == Ok(false) <==> |t.cols| == 1 || (GROUP in t.cols && t.HasNull(GROUP)))
      && (o.Outcome? && o.result == Ok(false) ==> o.table == t)
      && (|t.cols| != 1 && GROUP !in t.cols ==> o == Outcome(Raised, t))
      && (t.rows == [] || batchSize <= 0 ==> o.Outcome? && o.result != Ok(true))
  {}

  /** After a squash every column but `_group` is as it was, in the order of the old ids. */
  lemma {:induction false} SquashedColumns(t: ArrowTable, i: nat, c: Column)
    requires Packable(t) && i < |StableSort(t.rows)|
    ensures |Squashed(t).rows| == |StableSort(t.rows)| && Squashed(t).cols == t.cols
    ensures c in Squashed(t).rows[i] <==> c in StableSort(t.rows)[i] || c == GROUP
    ensures c in Squashed(t).rows[i] && c != GROUP ==> Squashed(t).rows[i][c] == StableSort(t.rows)[i][c]
  {
    MarkedRow(StableSort(t.rows), i);
    hide StableSort, Ranks, Renumber;
    SquashedIs(t);
  }

  lemma {:induction false} SquashedIs(t: ArrowTable)
    requires Packable(t)
    ensures Squashed(t) == ArrowTable(t.cols, Renumber(StableSort(t.rows)))
    ensures |Renumber(StableSort(t.rows))| == |StableSort(t.rows)|
  {
    hide StableSort, Ranks;
  }

  // ---- the rows of an unpacked table ----

  /** How many elements stand in the first k cells. */
  function ElementsBefore(cells: seq<Value>, k: nat): nat
    requires k <= |cells|
  {
    if k == 0 then 0
    else ElementsBefore(cells, k - 1) + if cells[k - 1].List? then |cells[k - 1].items| else 0
  }

  /** The row an element is unpacked as: its own columns, and the number of its cell as `_group`. */
  ghost predicate UnpackedFrom(r: Row, v: Value, k: nat) {
    && v.Dict?
    && (forall c :: c in r <==> c in v.fields || c == GROUP)
    && GROUP in r && r[GROUP] == Int(k)
    && forall c :: c in v.fields && c != GROUP ==> r[c] == v.fields[c]
  }

  lemma {:induction false} UnpackedCell(v: Value, k: nat)
    requires Spreadable(v)
    ensures |UnpackCell(v, k)| == |v.items|
    ensures forall j :: 0 <= j < |v.items| ==>
      UnpackCell(v, k)[j].Dict? && UnpackedFrom(UnpackCell(v, k)[j].fields, v.items[j], k)
  {}

  lemma {:induction false} UnpackedSize(cells: seq<Value>, n: nat)
    requires n <= |cells| && AllSpreadable(cells)
    ensures |UnpackCells(cells[..n], 0)| == ElementsBefore(cells, n)
  {
    if n > 0 {
      UnpackedSize(cells, n - 1);
      UnpackOneMore(cells[..n], 0);
      assert cells[..n][..n - 1] == cells[..n - 1];
    } else {
      assert Blocks(cells[..0], 0) == [];
    }
  }

  lemma {:induction false} UnpackedAt(cells: seq<Value>, n: nat, k: nat, j: nat)
    requires k < n <= |cells| && AllSpreadable(cells) && j < |cells[k].items|
    ensures var dicts, i := UnpackCells(cells[..n], 0), ElementsBefore(cells, k) + j;
      i < |dicts| && dicts[i] == UnpackCell(cells[k], k)[j]
  {
    hide UnpackCells, UnpackCell;
    UnpackOneMore(cells[..n], 0);
    assert cells[..n][..n - 1] == cells[..n - 1] && cells[..n][n - 1] == cells[n - 1];
    UnpackedSize(cells, n - 1);
    UnpackedCell(cells[k], k);
    if k < n - 1 {
      UnpackedAt(cells, n - 1, k, j);
    }
  }

  /** The rows of the unpacked table: those of the first cell, then those of the second, and so on. */
  lemma {:induction false} UnpackedElements(t: ArrowTable, keys: set<Column>, batchSize: int, schedule: Schedule)
    requires Unpackable(t, keys) && |Cells(t)| <= batchSize && schedule.handed > 0
    ensures var o, cells := UnpackOutcome(t, batchSize, schedule), Cells(t);
      && o.Outcome? && o.result == Ok(true) && o.table.cols == keys + {GROUP}
      && |o.table.rows| == ElementsBefore(cells, |cells|)
      && forall k, j :: 0 <= k < |cells| && 0 <= j < |cells[k].items| ==>
           var i := ElementsBefore(cells, k) + j;
           i < |o.table.rows| && UnpackedFrom(o.table.rows[i], cells[k].items[j], k)
  {
    hide UnpackOutcome, UnpackCells, UnpackCell, UnpackedFrom, ElementsBefore;
    UnpackFits(t, keys, batchSize, schedule);
    var cells := Cells(t);
    forall k | 0 <= k < |cells| ensures Spreadable(cells[k]) { assert CellOver(cells[k], keys); }
    assert cells[..|cells|] == cells;
    UnpackedSize(cells, |cells|);
    UnpackedOver(cells, 0, keys);
    var dicts := UnpackCells(cells, 0);
    forall k, j | 0 <= k < |cells| && 0 <= j < |cells[k].items|
      ensures var i := ElementsBefore(cells, k) + j;
        i < |dicts| && dicts[i].Dict? && UnpackedFrom(dicts[i].fields, cells[k].items[j], k)
    {
      UnpackedAt(cells, |cells|, k, j);
      UnpackedCell(cells[k], k);
    }
  }

  /** Unpack returns False, and leaves the table alone, unless the table is packed and its first cell begins with a dict. */
  lemma {:induction false} UnpackRefuses(t: ArrowTable, batchSize: int, schedule: Schedule)
    ensures var o := UnpackOutcome(t, batchSize, schedule);
      && (o.Outcome? && o.result == Ok(false) <==>
            t.cols != {PACK} || t.HasNull(PACK) ||
            (t.rows != [] && !(Cells(t)[0].List? && Cells(t)[0].items != [] && Cells(t)[0].items[0].Dict?)))
      && (o.Outcome? && o.result == Ok(false) ==> o.table == t)
      && (t.rows == [] || batchSize <= 0 ==> o.Outcome? && o.result != Ok(true))
  {
    OneColumn(t.cols);
    if batchSize > 0 { ReadSaysTrue(t, Cells(t), batchSize, schedule); }
    hide UnpackRead;
  }

  lemma {:induction false} ReadSaysTrue(t: ArrowTable, cells: seq<Value>, batchSize: nat, schedule: Schedule)
    requires 0 < batchSize
    ensures var o := UnpackRead(t, cells, batchSize, schedule); o.Outcome? ==> o.result != Ok(false)
  {
    hide UnpackChunks, GoodTasks, Collect, EndsAtEmpty, CanBlock;
  }

  lemma {:induction false} OneColumn(cols: set<Column>)
    ensures PACK in cols && |cols| == 1 <==> cols == {PACK}
  {
    if PACK in cols && |cols| == 1 {
      assert |cols - {PACK}| == 0;
      assert cols == (cols - {PACK}) + {PACK};
    }
  }
}
