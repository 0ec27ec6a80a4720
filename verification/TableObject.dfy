/** The object that holds a table and reassigns it: squash, pack, unpack, append and insert. */
module TableObject {
  import opened Options
  import opened Rows
  import opened Grouping
  import opened MapperReader
  import opened Tables
  import opened PackLaws
  import opened UnpackLaws
  import opened RoundTrip

  /** A group cut off at the end of a slice, kept for the slice that starts where it ended. */
  datatype Carry = Carry(id: int, data: seq<Row>)

  /** Carried groups end right before the row they are kept for. */
  ghost predicate CarriesBehind(merge: map<nat, Carry>, ordered: seq<Row>) {
    forall b :: b in merge ==> 0 < b <= |ordered| && merge[b].id == Id(ordered[b - 1])
  }

  ghost predicate InGroups(rows: seq<Row>) {
    forall i :: 0 <= i < |rows| ==> GROUP in rows[i] && rows[i][GROUP].Int?
  }

  ghost predicate NonNegative(rows: seq<Row>) {
    forall i :: 0 <= i < |rows| ==> Id(rows[i]) >= 0
  }

  function Slice(ordered: seq<Row>, task: Task): seq<Row>
    requires task.start + task.size <= |ordered|
  {
    ordered[task.start..task.start + task.size]
  }

  lemma {:induction false} NonNegativeSlice(rows: seq<Row>, task: Task)
    requires NonNegative(rows) && task.start + task.size <= |rows|
    ensures NonNegative(Slice(rows, task))
  {}

  /** The state of the packing loop after the rows `seen`. */
  ghost predicate PackedSoFar(seen: seq<Row>, out: seq<Value>, group: seq<Row>) {
    if seen == [] then out == [] && group == []
    else group != [] && PackGroups(Runs(seen)) == out + [List(RowsToDicts(group))]
  }

  lemma {:induction false} SeenMore(seen: seq<Row>, out: seq<Value>, group: seq<Row>, r: Row)
    requires PackedSoFar(seen, out, group)
    ensures seen == [] ==> PackedSoFar(seen + [r], out, [Payload(r)])
    ensures seen != [] && Id(seen[|seen| - 1]) == Id(r) ==> PackedSoFar(seen + [r], out, group + [Payload(r)])
    ensures seen != [] && Id(seen[|seen| - 1]) != Id(r) ==>
      PackedSoFar(seen + [r], out + [List(RowsToDicts(group))], [Payload(r)])
  {
    RunsMore(seen, r);
    GroupAdded(Runs(seen), r);
    assert RowsToDicts([Payload(r)]) == [Dict(Payload(r))];
    if seen == [] {
      assert PackGroups(Runs(seen)) == [];
    } else {
      LastGroupGrows(Runs(seen), r);
      DictsMore(group, Payload(r));
    }
  }

  lemma {:induction false} NothingSeen()
    ensures PackedSoFar([], [], [])
  {}

  lemma {:induction false} AscendingAt(ordered: seq<Row>, i: nat, j: nat)
    requires Ascending(ordered) && i <= j < |ordered|
    ensures Id(ordered[i]) <= Id(ordered[j])
  {}

  lemma {:induction false} CarryMore(merge: map<nat, Carry>, ordered: seq<Row>, b: nat, carry: Carry)
    requires CarriesBehind(merge, ordered) && 0 < b <= |ordered| && carry.id == Id(ordered[b - 1])
    ensures CarriesBehind(merge[b := carry], ordered)
  {}

  lemma {:induction false} SeenStep(rows: seq<Row>, i: nat, out: seq<Value>, group: seq<Row>)
    requires i < |rows| && PackedSoFar(rows[..i], out, group)
    ensures i == 0 || Id(rows[i - 1]) == Id(rows[i]) ==>
      PackedSoFar(rows[..i + 1], out, group + [Payload(rows[i])])
    ensures i > 0 && Id(rows[i - 1]) != Id(rows[i]) ==>
      PackedSoFar(rows[..i + 1], out + [List(RowsToDicts(group))], [] + [Payload(rows[i])])
  {
    var seen := rows[..i];
    SeenMore(seen, out, group, rows[i]);
    assert rows[..i + 1] == seen + [rows[i]];
    assert [] + [Payload(rows[i])] == [Payload(rows[i])];
    assert i > 0 ==> seen[|seen| - 1] == rows[i - 1];
  }

  lemma {:induction false} SeenAll(rows: seq<Row>, out: seq<Value>, group: seq<Row>)
    requires rows != [] && PackedSoFar(rows[..|rows|], out, group)
    ensures PackChunk(rows, true) == out + [List(RowsToDicts(group))]
    ensures PackChunk(rows, false) == out
  {
    assert rows[..|rows|] == rows;
  }

  lemma {:induction false} RankStep(s: seq<Row>, i: nat)
    requires i < |s|
    ensures Ranks(s)[i] == if i == 0 then 0 else Ranks(s)[i - 1] + if Id(s[i - 1]) != Id(s[i]) then 1 else 0
    decreases |s|
  {
    if i < |s| - 1 {
      RankStep(s[..|s| - 1], i);
    }
  }

  lemma {:induction false} UnpackStep(cells: seq<Value>, i: nat, start: nat)
    requires i < |cells|
    ensures UnpackCells(cells[..i + 1], start) == UnpackCells(cells[..i], start) + UnpackCell(cells[i], start + i)
  {
    UnpackOneMore(cells[..i + 1], start);
    assert cells[..i + 1][..i] == cells[..i];
  }

  /** The good slices are those before the first bad one. */
  lemma {:induction false} GoodUpTo(cells: seq<Value>, tasks: seq<Task>, k: nat)
    requires Within(tasks, |cells|) && k <= |tasks|
    requires forall j :: 0 <= j < k ==> TaskSpreadable(cells, tasks[j])
    requires k < |tasks| ==> !TaskSpreadable(cells, tasks[k])
    ensures GoodTasks(cells, tasks) == tasks[..k]
  {
    hide TaskSpreadable;
    if k > 0 {
      GoodUpTo(cells, tasks[1..], k - 1);
      assert tasks[..k] == [tasks[0]] + tasks[1..][..k - 1];
    }
  }

  lemma {:induction false} ChunkMore(cells: seq<Value>, tasks: seq<Task>, k: nat)
    requires Within(tasks, |cells|) && k < |tasks|
    ensures Within(tasks[..k], |cells|) && Within(tasks[..k + 1], |cells|)
    ensures UnpackChunks(cells, tasks[..k + 1]) == UnpackChunks(cells, tasks[..k]) + [UnpackTask(cells, tasks[k])]
  {}

  lemma {:induction false} WithColumnsTwice(r: Row, cols: set<Column>)
    ensures WithColumns(WithColumns(r, cols), cols) == WithColumns(r, cols)
  {}

  lemma {:induction false} InsertAtEnd(t: ArrowTable, added: ArrowTable)
    ensures ConcatPromote(t, added) ==
      ConcatPromote(ConcatPromote(ArrowTable(t.cols, t.rows[..|t.rows|]), added), ArrowTable(t.cols, t.rows[|t.rows|..]))
  {
    var once := ConcatPromote(t, added);
    assert t.rows[..|t.rows|] == t.rows;
    assert once.cols + t.cols == once.cols;
    assert once.rows + t.rows[|t.rows|..] == once.rows;
    forall i | 0 <= i < |once.rows| ensures WithColumns(once.rows[i], once.cols) == once.rows[i] {
      WithColumnsTwice((t.rows + added.rows)[i], once.cols);
    }
  }

  lemma {:induction false} InsertAtStart(t: ArrowTable, added: ArrowTable)
    ensures ConcatPromote(added, t) ==
      ConcatPromote(ConcatPromote(ArrowTable(t.cols, t.rows[..0]), added), ArrowTable(t.cols, t.rows[0..]))
  {
    var cols := t.cols + added.cols;
    var front := ConcatPromote(ArrowTable(t.cols, t.rows[..0]), added);
    assert t.rows[0..] == t.rows && t.rows[..0] + added.rows == added.rows;
    assert added.cols + t.cols == cols && cols + t.cols == cols;
    forall i | 0 <= i < |added.rows| ensures WithColumns(front.rows[i], cols) == WithColumns(added.rows[i], cols) {
      WithColumnsTwice(added.rows[i], cols);
    }
  }

  /** The rows to pack are in order and their ids are not negative, so no slice is refused. */
  lemma {:induction false} OrderedForPacking(t: ArrowTable)
    requires t.Grouped()
    ensures |Ordered(t)| == |t.rows| && Ascending(Ordered(t)) && InGroups(Ordered(t))
    ensures NonNegative(Ordered(t))
  {
    hide Ascending, Runs, Ids, Select;
    var sorted := StableSort(t.rows);
    StableSortSameRows(t.rows);
    OrderedRows(t.rows);
    forall i | 0 <= i < |sorted|
      ensures GROUP in Ordered(t)[i] && Ordered(t)[i][GROUP].Int? && Id(Ordered(t)[i]) >= 0
    {
      MarkedRow(sorted, i);
    }
  }

  class Table {
    var inner: ArrowTable

    constructor (inner: ArrowTable)
      ensures this.inner == inner
    {
      this.inner := inner;
    }

    method SquashGroupNumber()
      requires inner.Valid() && !inner.HasNull(GROUP)
      modifies this
      ensures inner == Squashed(old(inner))
    {
      if !inner.Grouped() { return; }
      var sorted := StableSort(inner.rows);
      StableSortSameRows(inner.rows);
      var numbers := CountGroups(sorted);
      inner := ArrowTable(inner.cols, seq(|sorted|, i requires 0 <= i < |sorted| => WithGroup(sorted[i], numbers[i])));
      assert inner.rows == Renumber(sorted);
    }

    /** The loop over the sorted group column. */
    static method CountGroups(sorted: seq<Row>) returns (numbers: seq<nat>)
      requires sorted != []
      ensures numbers == Ranks(sorted)
    {
      var lastAppeared, current := Id(sorted[0]), 0;
      numbers := [0];
      RankStep(sorted, 0);
      for i := 1 to |sorted|
        invariant |numbers| == i && forall k :: 0 <= k < i ==> numbers[k] == Ranks(sorted)[k]
        invariant current == numbers[i - 1] && lastAppeared == Id(sorted[i - 1])
      {
        var num := Id(sorted[i]);
        if num != lastAppeared {
          lastAppeared := num;
          current := current + 1;
        }
        numbers := numbers + [current];
        RankStep(sorted, i);
      }
    }

    /** Takes the marks out of a row and wraps a plain string response. */
    static method PopMarks(r: Row) returns (row: Row)
      ensures row == Payload(r)
    {
      row := r - {INDEX};
      row := row - {GROUP};
      assert row == r - {INDEX, GROUP};
      if RESPONSE in row && row[RESPONSE].Str? {
        row := row[RESPONSE := List([List([row[RESPONSE]])])];
      }
    }

    /**
     * The rows carried over for this slice, if they belong to the group that just started. They end
     * right before the slice, so with ascending ids they never do.
     */
    static method TakeCarried(merge: map<nat, Carry>, ghost ordered: seq<Row>, start: nat, groupIndex: int)
      returns (carried: seq<Row>, merge': map<nat, Carry>)
      requires CarriesBehind(merge, ordered)
      ensures merge' == merge - {start} && CarriesBehind(merge', ordered)
      ensures start < |ordered| && Ascending(ordered) && Id(ordered[start]) < groupIndex ==> carried == []
    {
      carried, merge' := [], merge;
      if start in merge {
        if merge[start].id == groupIndex { carried := merge[start].data; }
        merge' := merge - {start};
      }
    }

    /** The closure that packs one slice, with the shared dictionary of carried groups. */
    static method PackSlice(ordered: seq<Row>, task: Task, merge: map<nat, Carry>)
      returns (out: Result<seq<Value>>, merge': map<nat, Carry>)
      requires 0 < task.size && task.start + task.size <= |ordered|
      requires Ascending(ordered) && InGroups(ordered) && CarriesBehind(merge, ordered)
      ensures CarriesBehind(merge', ordered)
      ensures out.Raised? <==> !NonNegative(Slice(ordered, task))
      ensures out.Ok? ==> out.value == PackTask(ordered, task)
    {
      hide PackedSoFar, PackChunk, Payload, Ascending, CarriesBehind;
      var rows: seq<Row> := Slice(ordered, task);
      merge' := merge;
      NothingSeen();
      var yielded: seq<Value>, groupData: seq<Row> := [], [];
      var current := rows[0][GROUP].n;
      var isFirst := true;
      for i := 0 to |rows|
        invariant PackedSoFar(rows[..i], yielded, groupData)
        invariant current == Id(rows[if i == 0 then 0 else i - 1])
        invariant CarriesBehind(merge', ordered)
        invariant forall k :: 0 <= k < i ==> Id(rows[k]) >= 0
      {
        assert rows[i] == ordered[task.start + i];
        var groupIndex := rows[i][GROUP].n;
        if groupIndex < 0 { return Raised, merge'; }
        var row := PopMarks(rows[i]);
        SeenStep(rows, i, yielded, groupData);
        if groupIndex != current {
          if isFirst {
            isFirst := false;
            var carried;
            carried, merge' := TakeCarried(merge', ordered, task.start, groupIndex);
            AscendingAt(ordered, task.start, task.start + i - 1);
            AscendingAt(ordered, task.start + i - 1, task.start + i);
            assert rows[i - 1] == ordered[task.start + i - 1];
            assert groupData + carried == groupData;
            groupData := groupData + carried;
          }
          current := groupIndex;
          yielded := yielded + [List(RowsToDicts(groupData))];
          groupData := [];
        }
        groupData := groupData + [row];
      }
      SeenAll(rows, yielded, groupData);
      if task.start + task.size < |ordered| {
        assert rows[|rows| - 1] == ordered[task.start + task.size - 1];
        CarryMore(merge', ordered, task.start + task.size, Carry(current, groupData));
        merge' := merge'[task.start + task.size := Carry(current, groupData)];
      } else {
        yielded := yielded + [List(RowsToDicts(groupData))];
      }
      out := Ok(yielded);
    }

    /** Pack under any schedule; with some it waits for ever. */
    method Pack(batchSize: int, schedule: Schedule) returns (r: Result<bool>, waits: bool)
      requires inner.Valid()
      modifies this
      ensures (if waits then Waiting(inner) else Outcome(r, inner)) == PackOutcome(old(inner), batchSize, schedule)
    {
      if |inner.cols| == 1 { return Ok(false), false; }
      if GROUP !in inner.cols { return Raised, false; }
      if inner.HasNull(GROUP) { return Ok(false), false; }
      SquashGroupNumber();
      // without rows or with a negative step there is no slice, so nothing to write; range() refuses the step 0
      if inner.rows == [] || batchSize <= 0 { return Raised, false; }
      var ordered := StableSort(WithIndices(inner.rows));
      OrderedForPacking(old(inner));
      var outcome := MapPack(inner, ordered, batchSize, schedule);
      inner := outcome.table;
      if outcome.Waiting? { return Raised, true; }
      r, waits := outcome.result, false;
    }

    /** The slices packed by the workers and read back as one table. */
    static method MapPack(t: ArrowTable, ordered: seq<Row>, batchSize: nat, schedule: Schedule) returns (outcome: Outcome)
      requires 0 < batchSize && Ascending(ordered) && InGroups(ordered)
      requires NonNegative(ordered)
      ensures outcome == PackRead(t, ordered, batchSize, schedule)
    {
      var chunks := PackAll(ordered, batchSize);
      outcome := ReadBack(t, chunks, batchSize, schedule);
    }

    /** The reader and the new table; t is kept when the call does not come to its end. */
    static method ReadBack(t: ArrowTable, chunks: seq<seq<Value>>, batchSize: nat, schedule: Schedule)
      returns (outcome: Outcome)
      ensures outcome == ReadSlices(t, chunks, batchSize, schedule)
    {
      if schedule.blocks && CanBlock(chunks, batchSize) { return Waiting(t); }
      var table := Collect(chunks, batchSize, schedule.handed);
      outcome := if table.Ok? then Outcome(Ok(true), table.value) else Outcome(Raised, t);
    }

    /** All slices; what a slice yields does not depend on the dictionary, hence not on the schedule. */
    static method PackAll(ordered: seq<Row>, batchSize: nat) returns (chunks: seq<seq<Value>>)
      requires 0 < batchSize && Ascending(ordered) && InGroups(ordered)
      requires NonNegative(ordered)
      ensures Within(Tasks(0, |ordered|, batchSize), |ordered|)
      ensures chunks == PackChunks(ordered, Tasks(0, |ordered|, batchSize))
    {
      var tasks := Tasks(0, |ordered|, batchSize);
      TasksWithin(0, |ordered|, batchSize);
      chunks := [];
      var merge: map<nat, Carry> := map[];
      assert CarriesBehind(merge, ordered);
      hide CarriesBehind, PackTask, Tasks, NonNegative, Slice;
      for k := 0 to |tasks|
        invariant |chunks| == k && CarriesBehind(merge, ordered)
        invariant forall j :: 0 <= j < k ==> chunks[j] == PackTask(ordered, tasks[j])
      {
        TasksAdjoin(0, |ordered|, batchSize, k);
        NonNegativeSlice(ordered, tasks[k]);
        var chunk;
        chunk, merge := PackSlice(ordered, tasks[k], merge);
        chunks := chunks + [chunk.value];
      }
    }

    /** The elements of one packed cell as rows of one group. */
    static method ConstructRows(cell: Value, groupIndex: int) returns (r: Result<seq<Value>>)
      ensures r.Raised? <==> !Spreadable(cell)
      ensures r.Ok? ==> r.value == UnpackCell(cell, groupIndex)
    {
      if !cell.List? { return Raised; }
      var innerList: seq<Value> := [];
      for j := 0 to |cell.items|
        invariant |innerList| == j && forall k :: 0 <= k < j ==> cell.items[k].Dict?
        invariant forall k :: 0 <= k < j ==> innerList[k] == Dict(WithGroup(cell.items[k].fields, groupIndex))
      {
        if !cell.items[j].Dict? { return Raised; }
        innerList := innerList + [Dict(cell.items[j].fields[GROUP := Int(groupIndex)])];
      }
      r := Ok(innerList);
    }

    /** The closure that unpacks one slice. */
    static method UnpackSlice(cells: seq<Value>, task: Task) returns (out: Result<seq<Value>>)
      requires task.start + task.size <= |cells|
      ensures out.Raised? <==> !TaskSpreadable(cells, task)
      ensures out.Ok? ==> out.value == UnpackTask(cells, task)
    {
      var rows := cells[task.start..task.start + task.size];
      var yielded: seq<Value> := [];
      for i := 0 to |rows|
        invariant yielded == UnpackCells(rows[..i], task.start)
        invariant forall k :: 0 <= k < i ==> Spreadable(rows[k])
      {
        var elements := ConstructRows(rows[i], task.start + i);
        if elements.Raised? { return Raised; }
        UnpackStep(rows, i, task.start);
        yielded := yielded + elements.value;
      }
      assert rows[..|rows|] == rows;
      out := Ok(yielded);
    }

    /**
     * Unpack under such a schedule. A cell that is no list of dicts ends its worker before the barrier;
     * then the reader ends at an empty chunk before it, or the call waits for ever.
     */
    method Unpack(batchSize: int, schedule: Schedule) returns (r: Result<bool>, waits: bool)
      requires inner.Valid()
      modifies this
      ensures (if waits then Waiting(inner) else Outcome(r, inner)) == UnpackOutcome(old(inner), batchSize, schedule)
    {
      waits := false;
      if PACK !in inner.cols || |inner.cols| != 1 || inner.HasNull(PACK) { return Ok(false), false; }
      if inner.rows == [] { return Raised, false; }
      var cells := Cells(inner);
      var element := cells[0];
      if !(element.List? && element.items != [] && element.items[0].Dict?) { return Ok(false), false; }
      if batchSize <= 0 { return Raised, false; }
      var outcome := ReadUnpacked(inner, cells, batchSize, schedule);
      inner := outcome.table;
      if outcome.Waiting? { return Raised, true; }
      r := outcome.result;
    }

    /** The unpacked slices, read back as one table. */
    static method ReadUnpacked(t: ArrowTable, cells: seq<Value>, batchSize: nat, schedule: Schedule)
      returns (outcome: Outcome)
      requires 0 < batchSize
      ensures outcome == UnpackRead(t, cells, batchSize, schedule)
    {
      hide ReadSlices, EndsAtEmpty, GoodTasks, UnpackChunks;
      var chunks, failed := UnpackAll(cells, batchSize);
      ghost var tasks := Tasks(0, |cells|, batchSize);
      assert tasks[..|tasks|] == tasks;
      if failed && !EndsAtEmpty(chunks, batchSize) { return Waiting(t); }
      outcome := ReadBack(t, chunks, batchSize, if failed then Schedule(|chunks|, false) else schedule);
    }

    /** The slices in turn, up to the first that makes its worker raise. */
    static method UnpackAll(cells: seq<Value>, batchSize: nat) returns (chunks: seq<seq<Value>>, failed: bool)
      requires 0 < batchSize
      ensures Within(Tasks(0, |cells|, batchSize), |cells|)
      ensures chunks == UnpackChunks(cells, GoodTasks(cells, Tasks(0, |cells|, batchSize)))
      ensures failed <==> |GoodTasks(cells, Tasks(0, |cells|, batchSize))| < |Tasks(0, |cells|, batchSize)|
    {
      hide UnpackTask, TaskSpreadable, Tasks, GoodTasks;
      var tasks := Tasks(0, |cells|, batchSize);
      TasksWithin(0, |cells|, batchSize);
      chunks, failed := [], false;
      for k := 0 to |tasks|
        invariant Within(tasks[..k], |cells|) && chunks == UnpackChunks(cells, tasks[..k])
        invariant forall j :: 0 <= j < k ==> TaskSpreadable(cells, tasks[j])
      {
        ChunkMore(cells, tasks, k);
        var chunk := UnpackSlice(cells, tasks[k]);
        if chunk.Raised? {
          GoodUpTo(cells, tasks, k);
          return chunks, true;
        }
        chunks := chunks + [chunk.value];
      }
      GoodUpTo(cells, tasks, |tasks|);
      assert tasks[..|tasks|] == tasks;
    }

    /** Marks the new elements one by one; an element that is no dict cannot be marked. */
    static method MarkElements(items: seq<Value>, args: AddArgs) returns (r: Result<seq<Row>>)
      requires !args.isPacked
      ensures r.Ok? <==> AllDicts(items) && (items != [] ==> ModeOf(args).Ok?)
      ensures r.Ok? && items != [] ==> r.value == NewRows(items, ModeOf(args).value)
    {
      var tables: seq<Row> := [];
      for i := 0 to |items|
        invariant |tables| == i && forall j :: 0 <= j < i ==> items[j].Dict?
        invariant i > 0 ==> ModeOf(args).Ok?
        invariant forall j :: 0 <= j < i ==> tables[j] == Marked(items[j].fields, ModeOf(args).value, j)
      {
        if !items[i].Dict? { return Raised; }
        var table := items[i].fields;
        if args.groupId != Int(-1) {
          if !args.addNewGroup {
            table := table[GROUP := args.groupId];
          } else if !args.groupId.Int? {
            return Raised;
          } else if args.isGrouped {
            table := table[GROUP := Int(args.groupId.n + 1)];
          } else {
            table := table[GROUP := Int(args.groupId.n + i + 1)];
          }
        }
        tables := tables + [table];
      }
      r := Ok(tables);
    }

    static method CreateNewTable(elem: Value, args: AddArgs) returns (r: Result<ArrowTable>)
      ensures r == match ModeOf(args) case Ok(mode) => NewTable(elem, mode) case Raised => Raised
    {
      match elem
      case List(items) =>
        if items == [] { return Raised; }
        if args.isPacked {
          if items[0].Dict? { return Ok(FromPacked([elem])); }
          if items[0].List? && items[0].items != [] && items[0].items[0].Dict? { return Ok(FromPacked(items)); }
          if items[0].Str? { return Ok(FromPacked(items)); }
          return Raised;
        }
        if !items[0].Dict? { return Raised; }
        var tables := MarkElements(items, args);
        if tables.Raised? { return Raised; }
        r := Ok(FromPyList(tables.value));
      case Dict(fields) =>
        if args.isPacked { return Ok(FromPacked([List([elem])])); }
        var row := fields;
        if args.groupId != Int(-1) {
          if !args.groupId.Int? { return Raised; }
          row := row[GROUP := Int(args.groupId.n + if args.addNewGroup then 1 else 0)];
        }
        r := Ok(FromPyList([row]));
      case Str(_) =>
        if !args.isPacked { return Raised; }
        r := Ok(FromPacked([elem]));
      case _ =>
        r := Raised;
    }

    /** The object to hand out: this one, changed, or a new one that leaves this one as it is. */
    method CreateNewObj(t: ArrowTable, shouldCreateNewObj: bool) returns (obj: Table)
      modifies this
      ensures obj.inner == t
      ensures if shouldCreateNewObj then fresh(obj) && inner == old(inner) else obj == this
    {
      if shouldCreateNewObj {
        obj := new Table(t);
      } else {
        inner := t;
        obj := this;
      }
    }

    method Append(elem: Value, addNewGroup: bool, isGrouped: bool, shouldCreateNewObj: bool)
      returns (r: Result<Table>)
      modifies this
      ensures r.Raised? <==> Appended(old(inner), elem, addNewGroup, isGrouped).Raised?
      ensures r.Ok? ==> r.value.inner == Appended(old(inner), elem, addNewGroup, isGrouped).value
      ensures r.Ok? && !shouldCreateNewObj ==> r.value == this
      ensures r.Raised? || shouldCreateNewObj ==> inner == old(inner)
      ensures r.Ok? && shouldCreateNewObj ==> fresh(r.value)
    {
      var rows := CreateNewTable(elem, ArgsFor(inner, addNewGroup, isGrouped, -1));
      if rows.Raised? { return Raised; }
      var obj := CreateNewObj(ConcatPromote(inner, rows.value), shouldCreateNewObj);
      r := Ok(obj);
    }

    method Insert(elem: Value, index: int, groupId: int, addNewGroup: bool, isGrouped: bool, shouldCreateNewObj: bool)
      returns (r: Result<Table>)
      modifies this
      ensures r.Raised? <==> Inserted(old(inner), elem, index, groupId, addNewGroup, isGrouped).Raised?
      ensures r.Ok? ==> r.value.inner == Inserted(old(inner), elem, index, groupId, addNewGroup, isGrouped).value
      ensures r.Ok? && !shouldCreateNewObj ==> r.value == this
      ensures r.Raised? || shouldCreateNewObj ==> inner == old(inner)
      ensures r.Ok? && shouldCreateNewObj ==> fresh(r.value)
    {
      if index < 0 || index > |inner.rows| { return Raised; }
      var rows := CreateNewTable(elem, ArgsFor(inner, addNewGroup, isGrouped, groupId));
      if rows.Raised? { return Raised; }
      var all;
      if index == |inner.rows| {
        all := ConcatPromote(inner, rows.value);
        InsertAtEnd(inner, rows.value);
      } else if index == 0 {
        all := ConcatPromote(rows.value, inner);
        InsertAtStart(inner, rows.value);
      } else {
        var front := ConcatPromote(ArrowTable(inner.cols, inner.rows[..index]), rows.value);
        all := ConcatPromote(front, ArrowTable(inner.cols, inner.rows[index..]));
      }
      var obj := CreateNewObj(all, shouldCreateNewObj);
      r := Ok(obj);
    }
  }
}
