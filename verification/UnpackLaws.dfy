/** What unpack means, how much of it depends on the slice size, and how it undoes pack. */
module UnpackLaws {
  import opened Options
  import opened Rows
  import opened Sequences
  import opened MapperReader
  import opened Tables

  // ---- unpacking in slices ----

  lemma {:induction false} UnpackConcat(a: seq<Value>, b: seq<Value>, start: nat)
    ensures UnpackCells(a + b, start) == UnpackCells(a, start) + UnpackCells(b, start + |a|)
  {
    assert Blocks(a + b, start) == Blocks(a, start) + Blocks(b, start + |a|);
    JoinConcat(Blocks(a, start), Blocks(b, start + |a|));
  }

  lemma {:induction false} UnpackOneMore(cells: seq<Value>, start: nat)
    requires cells != []
    ensures var n := |cells| - 1;
      UnpackCells(cells, start) == UnpackCells(cells[..n], start) + UnpackCell(cells[n], start + n)
  {
    var n := |cells| - 1;
    assert Blocks(cells, start)[..n] == Blocks(cells[..n], start);
  }

  /** The chunks of the slices from row `start` on. */
  function ChunksFrom(cells: seq<Value>, start: nat, batchSize: nat): seq<seq<Value>>
    requires 0 < batchSize
  {
    TasksWithin(start, |cells|, batchSize);
    UnpackChunks(cells, Tasks(start, |cells|, batchSize))
  }

  lemma {:induction false} NextChunk(cells: seq<Value>, start: nat, batchSize: nat)
    requires 0 < batchSize && start < |cells|
    ensures var next := NextStart(start, |cells|, batchSize);
      ChunksFrom(cells, start, batchSize) ==
      [UnpackCells(cells[start..next], start)] + ChunksFrom(cells, next, batchSize)
  {
    var next := NextStart(start, |cells|, batchSize);
    FirstTask(start, |cells|, batchSize);
    TasksWithin(next, |cells|, batchSize);
    ChunksPrepend(cells, Task(start, next - start), Tasks(next, |cells|, batchSize));
  }

  lemma {:induction false} ChunksPrepend(cells: seq<Value>, task: Task, rest: seq<Task>)
    requires task.start + task.size <= |cells|
    requires Within(rest, |cells|)
    ensures Within([task] + rest, |cells|)
    ensures UnpackChunks(cells, [task] + rest) ==
      [UnpackTask(cells, task)] + UnpackChunks(cells, rest)
  {}

  lemma {:induction false} UnpackSlices(cells: seq<Value>, start: nat, batchSize: nat)
    requires 0 < batchSize && start <= |cells|
    ensures Join(ChunksFrom(cells, start, batchSize)) == UnpackCells(cells[start..], start)
    decreases |cells| - start
  {
    if start < |cells| {
      var next := NextStart(start, |cells|, batchSize);
      NextChunk(cells, start, batchSize);
      UnpackSlices(cells, next, batchSize);
      hide ChunksFrom, UnpackCells, Join;
      var first, others := UnpackCells(cells[start..next], start), ChunksFrom(cells, next, batchSize);
      JoinConcat([first], others);
      JoinOne(first);
      assert cells[start..] == cells[start..next] + cells[next..];
      UnpackConcat(cells[start..next], cells[next..], start);
    }
  }

  /** Cells are numbered by their position in the table, so the slice size leaves no trace. */
  lemma {:induction false} UnpackIgnoresSlicing(cells: seq<Value>, batchSize: nat)
    requires 0 < batchSize
    ensures Join(ChunksFrom(cells, 0, batchSize)) == UnpackCells(cells, 0)
  {
    UnpackSlices(cells, 0, batchSize);
    assert cells[0..] == cells;
  }

  // ---- the table that comes back ----

  predicate CellOver(v: Value, keys: set<Column>) {
    Spreadable(v) && forall i :: 0 <= i < |v.items| ==> v.items[i].fields.Keys == keys
  }

  /** A packed table as pyarrow stores it: lists of structs with the same fields, none of them null. */
  ghost predicate PackedOver(cells: seq<Value>, keys: set<Column>) {
    && cells != []
    && cells[0].List? && cells[0].items != []
    && forall i :: 0 <= i < |cells| ==> CellOver(cells[i], keys)
  }

  predicate RowsOver(dicts: seq<Value>, cols: set<Column>) {
    forall i :: 0 <= i < |dicts| ==> dicts[i].Dict? && dicts[i].fields.Keys == cols
  }

  function FlatTable(dicts: seq<Value>, cols: set<Column>): ArrowTable
    requires RowsOver(dicts, cols)
  {
    ArrowTable(cols, DictsToRows(dicts))
  }

  lemma {:induction false} UnpackedOver(cells: seq<Value>, start: nat, keys: set<Column>)
    requires forall i :: 0 <= i < |cells| ==> CellOver(cells[i], keys)
    ensures RowsOver(UnpackCells(cells, start), keys + {GROUP})
  {
    if cells != [] {
      var n := |cells| - 1;
      UnpackedOver(cells[..n], start, keys);
      UnpackOneMore(cells, start);
    }
  }

  lemma {:induction false} UniformChunk(dicts: seq<Value>, cols: set<Column>)
    requires dicts != [] && RowsOver(dicts, cols)
    ensures ChunkTable(dicts) == Ok(FlatTable(dicts, cols))
  {
    var rows := DictsToRows(dicts);
    forall i | 0 <= i < |rows| ensures WithColumns(rows[i], cols) == rows[i] {}
    assert FromPyList(rows).rows == rows;
  }

  // ---- which cells the reader gets to see ----

  /**
   * How many cells the reader hands on: one slice, or, with slices of one cell, all up to an empty one
   * or as many as the schedule lets through.
   */
  function CellsRead(cells: seq<Value>, batchSize: nat, handed: nat): (n: nat)
    ensures n <= |cells|
  {
    if handed == 0 then 0
    else if |cells| <= batchSize then |cells|
    else if batchSize != 1 then batchSize
    else if handed <= FirstEmpty(cells, 0) then handed
    else FirstEmpty(cells, 0)
  }

  function FirstEmpty(cells: seq<Value>, k: nat): (n: nat)
    requires k <= |cells|
    ensures k <= n <= |cells|
    decreases |cells| - k
  {
    if k == |cells| || UnpackCell(cells[k], k) == [] then k else FirstEmpty(cells, k + 1)
  }

  lemma {:induction false} FlatTablesConcat(a: seq<Value>, b: seq<Value>, cols: set<Column>)
    requires RowsOver(a, cols) && RowsOver(b, cols)
    ensures RowsOver(a + b, cols)
    ensures DictsToRows(a + b) == DictsToRows(a) + DictsToRows(b)
  {}

  lemma {:induction false} ConcatSameTables(chunks: seq<seq<Value>>, cols: set<Column>)
    requires chunks != [] && AllNonEmpty(chunks) && forall i :: 0 <= i < |chunks| ==> RowsOver(chunks[i], cols)
    ensures RowsOver(Join(chunks), cols)
    ensures ChunkTables(chunks).Ok? && ConcatSame(ChunkTables(chunks).value) == Ok(FlatTable(Join(chunks), cols))
  {
    var first, rest := chunks[0], chunks[1..];
    UniformChunk(first, cols);
    JoinOne(first);
    if rest == [] {
      assert chunks == [first];
    } else {
      ConcatSameTables(rest, cols);
      assert chunks == [first] + rest;
      JoinConcat([first], rest);
      FlatTablesConcat(first, Join(rest), cols);
    }
  }

  lemma {:induction false} FewChunks(cells: seq<Value>, batchSize: nat, handed: nat)
    requires 0 < batchSize && 0 < handed && cells != [] && (|cells| <= batchSize || batchSize != 1)
    ensures var first := UnpackCells(cells[..CellsRead(cells, batchSize, handed)], 0);
      HandedOn(ChunksFrom(cells, 0, batchSize), batchSize, handed) == if first == [] then [] else [first]
  {
    NextChunk(cells, 0, batchSize);
    var next := NextStart(0, |cells|, batchSize);
    assert next == CellsRead(cells, batchSize, handed);
    assert cells[0..next] == cells[..next];
    var chunks := ChunksFrom(cells, 0, batchSize);
    if |cells| <= batchSize {
      assert ChunksFrom(cells, next, batchSize) == [];
      OneReceived(chunks[0], batchSize);
      assert chunks == [chunks[0]];
    } else {
      ReceivedFirstOnly(chunks, batchSize);
    }
    var all := Received(chunks, batchSize);
    assert handed <= |all| ==> all[..handed] == all;
  }

  lemma {:induction false} OneReceived<T>(chunk: seq<T>, batchSize: nat)
    ensures Received([chunk], batchSize) == if chunk == [] then [] else [chunk]
  {}

  lemma {:induction false} ChunkOfOne(cells: seq<Value>, k: nat)
    requires k < |cells|
    ensures |ChunksFrom(cells, k, 1)| == |cells| - k && ChunksFrom(cells, k, 1)[0] == UnpackCell(cells[k], k)
    decreases |cells| - k
  {
    NextChunk(cells, k, 1);
    assert Blocks(cells[k..k + 1], k) == [UnpackCell(cells[k], k)];
    JoinOne(UnpackCell(cells[k], k));
    if k + 1 < |cells| {
      ChunkOfOne(cells, k + 1);
    }
  }

  lemma {:induction false} OneMore<T>(xs: seq<T>, k: nat, m: nat)
    requires k < m <= |xs|
    ensures xs[k..m] == [xs[k]] + xs[k + 1..m]
  {}

  lemma {:induction false} ManyChunks(cells: seq<Value>, k: nat)
    requires k <= |cells|
    ensures Received(Blocks(cells, 0), 1, k) == Blocks(cells, 0)[k..FirstEmpty(cells, k)]
    decreases |cells| - k
  {
    var blocks := Blocks(cells, 0);
    if k < |cells| && UnpackCell(cells[k], k) != [] {
      assert blocks[k] == UnpackCell(cells[k], k);
      hide Blocks, UnpackCell;
      ManyChunks(cells, k + 1);
      OneMore(blocks, k, FirstEmpty(cells, k + 1));
    }
  }

  lemma {:induction false} SingleCells(cells: seq<Value>, k: nat)
    requires k <= |cells|
    ensures ChunksFrom(cells, k, 1) == Blocks(cells, 0)[k..]
    decreases |cells| - k
  {
    if k < |cells| {
      ChunkOfOne(cells, k);
      NextChunk(cells, k, 1);
      SingleCells(cells, k + 1);
      assert Blocks(cells, 0)[k..] == [UnpackCell(cells[k], k)] + Blocks(cells, 0)[k + 1..];
    }
  }

  lemma {:induction false} PartsOver(parts: seq<seq<Value>>, cols: set<Column>)
    requires RowsOver(Join(parts), cols)
    ensures forall i :: 0 <= i < |parts| ==> RowsOver(parts[i], cols)
  {
    if parts != [] {
      var front, last := parts[..|parts| - 1], parts[|parts| - 1];
      var all := Join(parts);
      assert all == Join(front) + last;
      forall i | 0 <= i < |Join(front)| ensures Join(front)[i] == all[i] {}
      forall i | 0 <= i < |last| ensures last[i] == all[|Join(front)| + i] {}
      PartsOver(front, cols);
    }
  }

  predicate AllNonEmpty<T>(parts: seq<seq<T>>) {
    forall i :: 0 <= i < |parts| ==> |parts[i]| > 0
  }

  lemma {:induction false} HandedOnNonEmpty<T>(chunks: seq<seq<T>>, batchSize: nat, handed: nat)
    ensures AllNonEmpty(HandedOn(chunks, batchSize, handed))
  {
    ReceivedUpTo(chunks, batchSize, 0);
  }

  /** With slices of one cell the reader gets the blocks of the first cells. */
  lemma {:induction false} SingleCellsRead(cells: seq<Value>, handed: nat)
    requires 1 < |cells| && 0 < handed
    ensures HandedOn(ChunksFrom(cells, 0, 1), 1, handed) == Blocks(cells[..CellsRead(cells, 1, handed)], 0)
  {
    SingleCells(cells, 0);
    ManyChunks(cells, 0);
    var n, blocks := CellsRead(cells, 1, handed), Blocks(cells, 0);
    assert blocks[0..] == blocks && blocks[0..FirstEmpty(cells, 0)] == blocks[..FirstEmpty(cells, 0)];
    assert blocks[..n] == Blocks(cells[..n], 0);
    assert handed <= FirstEmpty(cells, 0) ==> blocks[..FirstEmpty(cells, 0)][..handed] == blocks[..handed];
  }

  lemma {:induction false} SomethingRead(cells: seq<Value>, keys: set<Column>, batchSize: nat, handed: nat)
    requires 0 < batchSize && 0 < handed && PackedOver(cells, keys)
    ensures CellsRead(cells, batchSize, handed) > 0
    ensures UnpackCells(cells[..CellsRead(cells, batchSize, handed)], 0) != []
  {
    var read := cells[..CellsRead(cells, batchSize, handed)];
    assert CellOver(cells[0], keys) && UnpackCell(cells[0], 0) != [];
    assert read != [] && Blocks(read, 0)[0] != [];
    JoinEmpty(Blocks(read, 0));
  }

  /** Under every slice size and schedule the reader gets the dicts of the first CellsRead cells. */
  lemma {:induction false} ChunksRead(cells: seq<Value>, keys: set<Column>, batchSize: nat, handed: nat)
    requires 0 < batchSize && 0 < handed && PackedOver(cells, keys)
    ensures var dicts := UnpackCells(cells[..CellsRead(cells, batchSize, handed)], 0);
      && RowsOver(dicts, keys + {GROUP})
      && Collect(ChunksFrom(cells, 0, batchSize), batchSize, handed) == Ok(FlatTable(dicts, keys + {GROUP}))
  {
    hide CellsRead, HandedOn, Blocks, UnpackCells;
    var read := cells[..CellsRead(cells, batchSize, handed)];
    var got := HandedOn(ChunksFrom(cells, 0, batchSize), batchSize, handed);
    SomethingRead(cells, keys, batchSize, handed);
    JoinedRead(cells, batchSize, handed);
    UnpackedOver(read, 0, keys);
    PartsOver(got, keys + {GROUP});
    HandedOnNonEmpty(ChunksFrom(cells, 0, batchSize), batchSize, handed);
    assert got == [] ==> Join(got) == [];
    ConcatSameTables(got, keys + {GROUP});
  }

  lemma {:induction false} JoinedRead(cells: seq<Value>, batchSize: nat, handed: nat)
    requires 0 < batchSize && 0 < handed && cells != []
    ensures Join(HandedOn(ChunksFrom(cells, 0, batchSize), batchSize, handed)) ==
      UnpackCells(cells[..CellsRead(cells, batchSize, handed)], 0)
  {
    if |cells| <= batchSize || batchSize != 1 {
      FewChunks(cells, batchSize, handed);
      JoinOne(UnpackCells(cells[..CellsRead(cells, batchSize, handed)], 0));
    } else {
      SingleCellsRead(cells, handed);
    }
  }

  // ---- the theorems ----

  ghost predicate Unpackable(t: ArrowTable, keys: set<Column>) {
    t.Valid() && t.cols == {PACK} && PackedOver(Cells(t), keys)
  }

  /** The table of all elements, each row numbered by the packed row it came from. */
  function Unpacked(cells: seq<Value>, keys: set<Column>): ArrowTable
    requires forall i :: 0 <= i < |cells| ==> CellOver(cells[i], keys)
  {
    UnpackedOver(cells, 0, keys);
    FlatTable(UnpackCells(cells, 0), keys + {GROUP})
  }

  lemma {:induction false} AllGood(cells: seq<Value>, tasks: seq<Task>)
    requires Within(tasks, |cells|) && AllSpreadable(cells)
    ensures GoodTasks(cells, tasks) == tasks
  {
    if tasks != [] {
      AllGood(cells, tasks[1..]);
    }
  }

  lemma {:induction false} UnpackableIsRead(t: ArrowTable, keys: set<Column>, batchSize: int, schedule: Schedule)
    requires Unpackable(t, keys) && 0 < batchSize
    ensures UnpackOutcome(t, batchSize, schedule) ==
      ReadSlices(t, ChunksFrom(Cells(t), 0, batchSize), batchSize, schedule)
  {
    var cells := Cells(t);
    assert CellOver(cells[0], keys);
    assert !t.HasNull(PACK) by {
      forall r: Row | r in t.rows ensures !r[PACK].Null? {
        var i :| 0 <= i < |t.rows| && t.rows[i] == r;
        assert CellOver(cells[i], keys);
      }
    }
    assert |{PACK}| == 1;
    TasksWithin(0, |cells|, batchSize);
    AllGood(cells, Tasks(0, |cells|, batchSize));
  }

  /** The schedule blocks the reader, and it can: there are several slices of more than one cell. */
  predicate BlocksUnpack(cells: seq<Value>, batchSize: nat, schedule: Schedule) {
    schedule.blocks && 1 < batchSize < |cells|
  }

  lemma {:induction false} UnpackCanBlock(cells: seq<Value>, keys: set<Column>, batchSize: nat)
    requires 0 < batchSize && PackedOver(cells, keys)
    ensures CanBlock(ChunksFrom(cells, 0, batchSize), batchSize) <==> 1 < batchSize < |cells|
  {
    TasksWithin(0, |cells|, batchSize);
    OneTask(|cells|, batchSize);
    NextChunk(cells, 0, batchSize);
    SomethingRead(cells, keys, if batchSize == 1 then 2 else batchSize, 1);
    assert cells[0..NextStart(0, |cells|, batchSize)] == cells[..NextStart(0, |cells|, batchSize)];
  }

  /**
   * Under every schedule: the call waits for ever when the reader is blocked; it raises when nothing is
   * handed on; otherwise what comes back is the elements of the cells read.
   */
  lemma {:induction false} UnpackReadsCells(t: ArrowTable, keys: set<Column>, batchSize: int, schedule: Schedule)
    requires Unpackable(t, keys) && 0 < batchSize
    ensures UnpackOutcome(t, batchSize, schedule) ==
      if BlocksUnpack(Cells(t), batchSize, schedule) then Waiting(t)
      else if schedule.handed == 0 then Outcome(Raised, t)
      else Outcome(Ok(true), Unpacked(Cells(t)[..CellsRead(Cells(t), batchSize, schedule.handed)], keys))
  {
    UnpackableIsRead(t, keys, batchSize, schedule);
    UnpackCanBlock(Cells(t), keys, batchSize);
    if schedule.handed == 0 {
      assert HandedOn(ChunksFrom(Cells(t), 0, batchSize), batchSize, 0) == [];
    } else {
      hide UnpackOutcome, Collect, ChunksFrom, CanBlock;
      ChunksRead(Cells(t), keys, batchSize, schedule.handed);
    }
  }

  lemma {:induction false} UnpackFits(t: ArrowTable, keys: set<Column>, batchSize: int, schedule: Schedule)
    requires Unpackable(t, keys) && |Cells(t)| <= batchSize
    ensures UnpackOutcome(t, batchSize, schedule) ==
      if schedule.handed > 0 then Outcome(Ok(true), Unpacked(Cells(t), keys)) else Outcome(Raised, t)
  {
    UnpackReadsCells(t, keys, batchSize, schedule);
    assert Cells(t)[..|Cells(t)|] == Cells(t);
  }

  lemma {:induction false} NothingLeft(cells: seq<Value>, n: nat, keys: set<Column>)
    requires n <= |cells| && forall i :: 0 <= i < |cells| ==> CellOver(cells[i], keys)
    ensures UnpackCells(cells[n..], n) == [] <==> forall i :: n <= i < |cells| ==> cells[i] == List([])
  {
    var blocks := Blocks(cells[n..], n);
    JoinEmpty(blocks);
    forall i | n <= i < |cells| ensures blocks[i - n] == [] <==> cells[i] == List([]) {
      assert CellOver(cells[i], keys);
    }
    assert forall j :: 0 <= j < |blocks| ==> (blocks[j] == [] <==> cells[j + n] == List([]));
  }

  lemma {:induction false} ReadPart(cells: seq<Value>, n: nat, keys: set<Column>)
    requires n <= |cells| && forall i :: 0 <= i < |cells| ==> CellOver(cells[i], keys)
    ensures Unpacked(cells[..n], keys) == Unpacked(cells, keys) <==> UnpackCells(cells[n..], n) == []
  {
    assert cells == cells[..n] + cells[n..];
    UnpackConcat(cells[..n], cells[n..], 0);
    assert |Unpacked(cells, keys).rows| == |UnpackCells(cells, 0)|;
    assert |Unpacked(cells[..n], keys).rows| == |UnpackCells(cells[..n], 0)|;
  }

  /**
   * Unpack yields every element, with every slice size and schedule, exactly when the reader is not blocked
   * and no element is left unread.
   */
  lemma {:induction false} UnpackIsComplete(t: ArrowTable, keys: set<Column>, batchSize: int, schedule: Schedule)
    requires Unpackable(t, keys) && 0 < batchSize
    ensures UnpackOutcome(t, batchSize, schedule) == Outcome(Ok(true), Unpacked(Cells(t), keys)) <==>
      && !BlocksUnpack(Cells(t), batchSize, schedule)
      && forall i :: CellsRead(Cells(t), batchSize, schedule.handed) <= i < |Cells(t)| ==> Cells(t)[i] == List([])
  {
    UnpackReadsCells(t, keys, batchSize, schedule);
    if schedule.handed > 0 {
      NothingLeft(Cells(t), CellsRead(Cells(t), batchSize, schedule.handed), keys);
      ReadPart(Cells(t), CellsRead(Cells(t), batchSize, schedule.handed), keys);
    } else {
      assert Cells(t)[0] != List([]);
    }
  }

  // ---- a cell that makes its worker raise ----

  lemma {:induction false} GoodMeansSpreadable(cells: seq<Value>, start: nat, batchSize: nat)
    requires 0 < batchSize && start <= |cells| && Within(Tasks(start, |cells|, batchSize), |cells|)
    requires GoodTasks(cells, Tasks(start, |cells|, batchSize)) == Tasks(start, |cells|, batchSize)
    ensures forall i :: start <= i < |cells| ==> Spreadable(cells[i])
    decreases |cells| - start
  {
    if start < |cells| {
      var next := NextStart(start, |cells|, batchSize);
      FirstTask(start, |cells|, batchSize);
      var tasks, rest := Tasks(start, |cells|, batchSize), Tasks(next, |cells|, batchSize);
      assert tasks[0] == Task(start, next - start) && tasks[1..] == rest && TaskSpreadable(cells, tasks[0]);
      GoodMeansSpreadable(cells, next, batchSize);
      SliceSpreadable(cells, tasks[0]);
    }
  }

  lemma {:induction false} SliceSpreadable(cells: seq<Value>, task: Task)
    requires task.start + task.size <= |cells| && TaskSpreadable(cells, task)
    ensures forall i :: task.start <= i < task.start + task.size ==> Spreadable(cells[i])
  {
    hide Spreadable;
    var slice := cells[task.start..task.start + task.size];
    forall i | task.start <= i < task.start + task.size ensures Spreadable(cells[i]) {
      var k := i - task.start;
      assert 0 <= k < |slice| && slice[k] == cells[i] && Spreadable(slice[k]);
    }
  }

  lemma {:induction false} OneCell(cells: seq<Value>, k: nat)
    requires k < |cells|
    ensures TaskSpreadable(cells, Task(k, 1)) <==> Spreadable(cells[k])
    ensures UnpackTask(cells, Task(k, 1)) == UnpackCell(cells[k], k)
  {
    var slice := cells[k..k + 1];
    assert slice == [cells[k]] && slice[0] == cells[k];
    assert Blocks(slice, k) == [UnpackCell(cells[k], k)];
    JoinOne(UnpackCell(cells[k], k));
  }

  /** With slices of one cell, the good slices are the cells before the first bad one. */
  lemma {:induction false} GoodCells(cells: seq<Value>, start: nat, bad: nat)
    requires start <= bad < |cells| && !Spreadable(cells[bad])
    requires forall i :: start <= i < bad ==> Spreadable(cells[i])
    requires Within(Tasks(start, |cells|, 1), |cells|)
    ensures UnpackChunks(cells, GoodTasks(cells, Tasks(start, |cells|, 1))) == Blocks(cells, 0)[start..bad]
    decreases bad - start
  {
    hide Tasks, TaskSpreadable, UnpackTask, Spreadable, UnpackCell;
    FirstTask(start, |cells|, 1);
    var tasks := Tasks(start, |cells|, 1);
    assert tasks[0] == Task(start, 1) && tasks[1..] == Tasks(start + 1, |cells|, 1);
    OneCell(cells, start);
    if start < bad {
      GoodCells(cells, start + 1, bad);
      ChunksPrepend(cells, tasks[0], GoodTasks(cells, tasks[1..]));
      assert Blocks(cells, 0)[start..bad] == [UnpackCell(cells[start], start)] + Blocks(cells, 0)[start + 1..bad];
    } else {
      assert GoodTasks(cells, tasks) == [];
    }
  }

  lemma {:induction false} FirstChunkNotEmpty(cells: seq<Value>, batchSize: nat)
    requires 0 < batchSize && cells != [] && cells[0].List? && cells[0].items != []
    requires Within(Tasks(0, |cells|, batchSize), |cells|)
    requires GoodTasks(cells, Tasks(0, |cells|, batchSize)) != []
    ensures UnpackChunks(cells, GoodTasks(cells, Tasks(0, |cells|, batchSize)))[0] != []
  {
    FirstTask(0, |cells|, batchSize);
    var task := Tasks(0, |cells|, batchSize)[0];
    var slice := cells[task.start..task.start + task.size];
    assert TaskSpreadable(cells, task) && slice[0] == cells[0];
    assert Blocks(slice, 0)[0] != [];
    JoinEmpty(Blocks(slice, 0));
  }

  lemma {:induction false} EndsWithSingles<T>(chunks: seq<seq<T>>)
    ensures EndsAtEmpty(chunks, 1) <==> exists i :: 0 <= i < |chunks| && chunks[i] == []
  {
    ReceivedUpTo(chunks, 1, 0);
    var n := |Received(chunks, 1)|;
    assert n * 1 == n;
  }

  lemma {:induction false} NoEndWithLargerSlices<T>(chunks: seq<seq<T>>, batchSize: nat)
    requires 1 < batchSize && (chunks == [] || chunks[0] != [])
    ensures !EndsAtEmpty(chunks, batchSize)
  {
    if chunks != [] {
      ReceivedFirstOnly(chunks, batchSize);
      assert 1 * batchSize != 1;
    }
  }

  lemma {:induction false} StuckUnlessEmpty(cells: seq<Value>, batchSize: nat, bad: nat)
    requires 0 < batchSize && bad < |cells| && cells[0].List? && cells[0].items != []
    requires !Spreadable(cells[bad]) && forall i :: 0 <= i < bad ==> Spreadable(cells[i])
    requires Within(Tasks(0, |cells|, batchSize), |cells|)
    ensures EndsAtEmpty(UnpackChunks(cells, GoodTasks(cells, Tasks(0, |cells|, batchSize))), batchSize) <==>
      batchSize == 1 && exists i :: 0 <= i < bad && cells[i] == List([])
  {
    hide EndsAtEmpty, Tasks, GoodTasks;
    var good := GoodTasks(cells, Tasks(0, |cells|, batchSize));
    var chunks := UnpackChunks(cells, good);
    if batchSize == 1 {
      GoodCells(cells, 0, bad);
      EndsWithSingles(chunks);
      forall i | 0 <= i < bad ensures chunks[i] == [] <==> cells[i] == List([]) {}
    } else {
      if good != [] { FirstChunkNotEmpty(cells, batchSize); }
      NoEndWithLargerSlices(chunks, batchSize);
    }
  }

  /**
   * When a cell is no list of dicts, unpack waits for ever, unless slices hold one cell and an empty
   * cell comes before it: there the reading ends, and the rest is lost in silence.
   */
  lemma {:induction false} UnpackWaitsIff(t: ArrowTable, batchSize: int, schedule: Schedule, bad: nat)
    requires t.cols == {PACK} && t.rows != [] && !t.HasNull(PACK) && 0 < batchSize
    requires var cells := Cells(t);
      && cells[0].List? && cells[0].items != [] && cells[0].items[0].Dict?
      && bad < |cells| && !Spreadable(cells[bad]) && forall i :: 0 <= i < bad ==> Spreadable(cells[i])
    ensures UnpackOutcome(t, batchSize, schedule).Waiting? <==>
      batchSize != 1 || forall i :: 0 <= i < bad ==> Cells(t)[i] != List([])
  {
    var cells := Cells(t);
    TasksWithin(0, |cells|, batchSize);
    var tasks := Tasks(0, |cells|, batchSize);
    if |GoodTasks(cells, tasks)| == |tasks| {
      assert tasks[..|tasks|] == tasks;
      GoodMeansSpreadable(cells, 0, batchSize);
      assert false;
    }
    StuckUnlessEmpty(cells, batchSize, bad);
    assert |{PACK}| == 1;
  }
}
