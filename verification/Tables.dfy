/**
 * Tables with a `_group` column, packed tables with the single column `_pack`, and the object that
 * wraps them: squash, pack, unpack, append and insert.
 */
module Tables {
  import opened Options
  import opened Rows
  import opened Sequences
  import opened Grouping
  import opened MapperReader

  /** An immutable pyarrow table: its column names and its rows. */
  datatype ArrowTable = ArrowTable(cols: set<Column>, rows: seq<Row>) {
    ghost predicate Valid() {
      && (forall r: Row :: r in rows ==> r.Keys == cols)
      && (GROUP in cols ==> forall r: Row :: r in rows ==> r[GROUP].Int? || r[GROUP].Null?)
    }

    predicate Grouped() { rows != [] && GROUP in cols }

    predicate Packed() { rows != [] && cols == {PACK} }

    predicate HasNull(col: Column) { exists r: Row :: r in rows && col in r && r[col].Null? }
  }

  // ---- pyarrow ----

  function WithColumns(r: Row, cols: set<Column>): Row {
    map c | c in cols :: if c in r then r[c] else Null
  }

  /** Table.from_pylist: the columns are the keys of the first row, missing cells are null. */
  function FromPyList(rows: seq<Row>): ArrowTable
    requires rows != []
  {
    ArrowTable(rows[0].Keys, seq(|rows|, i requires 0 <= i < |rows| => WithColumns(rows[i], rows[0].Keys)))
  }

  /** Table.from_pydict with the single column `_pack`. */
  function FromPacked(values: seq<Value>): ArrowTable {
    ArrowTable({PACK}, seq(|values|, i requires 0 <= i < |values| => map[PACK := values[i]]))
  }

  /** concat_tables with promotion: the columns of both, missing cells are null. */
  function ConcatPromote(a: ArrowTable, b: ArrowTable): ArrowTable {
    var cols := a.cols + b.cols;
    var rows := a.rows + b.rows;
    ArrowTable(cols, seq(|rows|, i requires 0 <= i < |rows| => WithColumns(rows[i], cols)))
  }

  /** concat_tables without promotion refuses tables whose columns differ. */
  function ConcatSame(ts: seq<ArrowTable>): Result<ArrowTable> {
    if ts == [] then Raised
    else if |ts| == 1 then Ok(ts[0])
    else
      match ConcatSame(ts[1..])
      case Ok(rest) => if rest.cols == ts[0].cols then Ok(ArrowTable(ts[0].cols, ts[0].rows + rest.rows)) else Raised
      case Raised => Raised
  }

  predicate AllDicts(items: seq<Value>) {
    forall i :: 0 <= i < |items| ==> items[i].Dict?
  }

  function DictsToRows(items: seq<Value>): seq<Row>
    requires AllDicts(items)
  {
    seq(|items|, i requires 0 <= i < |items| => items[i].fields)
  }

  function RowsToDicts(rows: seq<Row>): seq<Value> {
    seq(|rows|, i requires 0 <= i < |rows| => Dict(rows[i]))
  }

  /** One chunk of mapper output as a table; its first element decides the form. */
  function ChunkTable(chunk: seq<Value>): Result<ArrowTable> {
    if chunk == [] then Raised
    else if chunk[0].List? || chunk[0].Str? then Ok(FromPacked(chunk))
    else if AllDicts(chunk) then Ok(FromPyList(DictsToRows(chunk)))
    else Raised
  }

  function ChunkTables(chunks: seq<seq<Value>>): Result<seq<ArrowTable>> {
    if chunks == [] then Ok([])
    else
      match (ChunkTable(chunks[0]), ChunkTables(chunks[1..]))
      case (Ok(t), Ok(ts)) => Ok([t] + ts)
      case _ => Raised
  }

  /** The table read back from the chunks that reach the reader, of which a schedule hands on the first few. */
  function Collect(chunks: seq<seq<Value>>, batchSize: nat, handed: nat): Result<ArrowTable> {
    match ChunkTables(HandedOn(chunks, batchSize, handed))
    case Ok(ts) => ConcatSame(ts)
    case Raised => Raised
  }

  // ---- squash ----

  /** The squashed group numbers of sorted rows: count up at every change of id. */
  function Ranks(s: seq<Row>): (ranks: seq<nat>)
    ensures |ranks| == |s|
  {
    if s == [] then []
    else
      var n := |s| - 1;
      var before := Ranks(s[..n]);
      before + [if n == 0 then 0 else if Id(s[n - 1]) != Id(s[n]) then before[n - 1] + 1 else before[n - 1]]
  }

  function WithGroup(r: Row, g: int): Row {
    r[GROUP := Int(g)]
  }

  function Renumber(s: seq<Row>): seq<Row> {
    seq(|s|, i requires 0 <= i < |s| => WithGroup(s[i], Ranks(s)[i]))
  }

  function Squashed(t: ArrowTable): ArrowTable {
    if !t.Grouped() then t else ArrowTable(t.cols, Renumber(StableSort(t.rows)))
  }

  // ---- pack ----

  /** What becomes of a row inside its group: `_index` and `_group` go, a string response is wrapped. */
  function Payload(r: Row): Row {
    var p := r - {INDEX, GROUP};
    if RESPONSE in p && p[RESPONSE].Str? then p[RESPONSE := List([List([p[RESPONSE]])])] else p
  }

  function Payloads(g: seq<Row>): seq<Row> {
    seq(|g|, i requires 0 <= i < |g| => Payload(g[i]))
  }

  function PackGroup(g: seq<Row>): Value {
    List(RowsToDicts(Payloads(g)))
  }

  function PackGroups(groups: seq<seq<Row>>): seq<Value> {
    seq(|groups|, k requires 0 <= k < |groups| => PackGroup(groups[k]))
  }

  function WithIndices(s: seq<Row>): seq<Row> {
    seq(|s|, i requires 0 <= i < |s| => s[i][INDEX := Int(i)])
  }

  /** One slice of pack: every run, except that an unfinished last run is only carried over. */
  function PackChunk(slice: seq<Row>, isLast: bool): seq<Value> {
    var groups := PackGroups(Runs(slice));
    if isLast || groups == [] then groups else groups[..|groups| - 1]
  }

  function PackTask(ordered: seq<Row>, task: Task): seq<Value>
    requires task.start + task.size <= |ordered|
  {
    PackChunk(ordered[task.start..task.start + task.size], task.start + task.size >= |ordered|)
  }

  function PackChunks(ordered: seq<Row>, tasks: seq<Task>): seq<seq<Value>>
    requires Within(tasks, |ordered|)
  {
    seq(|tasks|, k requires 0 <= k < |tasks| => PackTask(ordered, tasks[k]))
  }

  /** The result of a call and the table it leaves behind, or that the call waits for ever. */
  datatype Outcome = Outcome(result: Result<bool>, table: ArrowTable) | Waiting(table: ArrowTable)

  /** What a schedule makes of the chunks of a call that leaves t behind when it does not come to its end. */
  function ReadSlices(t: ArrowTable, chunks: seq<seq<Value>>, batchSize: nat, schedule: Schedule): Outcome {
    if schedule.blocks && CanBlock(chunks, batchSize) then Waiting(t)
    else
      match Collect(chunks, batchSize, schedule.handed)
      case Ok(table) => Outcome(Ok(true), table)
      case Raised => Outcome(Raised, t)
  }

  function PackOutcome(t: ArrowTable, batchSize: int, schedule: Schedule): Outcome {
    if |t.cols| == 1 then Outcome(Ok(false), t)
    else if GROUP !in t.cols then Outcome(Raised, t)
    else if t.HasNull(GROUP) then Outcome(Ok(false), t)
    else if t.rows == [] || batchSize <= 0 then Outcome(Raised, Squashed(t))
    else PackRead(Squashed(t), Ordered(t), batchSize, schedule)
  }

  /** The squashed rows with their positions in `_index`, sorted once more. */
  function Ordered(t: ArrowTable): seq<Row> {
    StableSort(WithIndices(Squashed(t).rows))
  }

  /** What comes back of the slices of ordered rows. */
  function PackRead(t: ArrowTable, ordered: seq<Row>, batchSize: nat, schedule: Schedule): Outcome
    requires 0 < batchSize
  {
    TasksWithin(0, |ordered|, batchSize);
    ReadSlices(t, PackChunks(ordered, Tasks(0, |ordered|, batchSize)), batchSize, schedule)
  }

  // ---- unpack ----

  /** A cell the unpacking code can spread: a list of dicts. */
  predicate Spreadable(v: Value) { v.List? && AllDicts(v.items) }

  /** The elements of one packed cell, each marked with the number of the cell. */
  function UnpackCell(v: Value, g: int): seq<Value> {
    if !Spreadable(v) then []
    else seq(|v.items|, j requires 0 <= j < |v.items| => Dict(WithGroup(v.items[j].fields, g)))
  }

  /** The elements of consecutive packed cells, each under the number of its cell. */
  function UnpackCells(cells: seq<Value>, start: nat): seq<Value> {
    Join(Blocks(cells, start))
  }

  function Blocks(cells: seq<Value>, start: nat): seq<seq<Value>> {
    seq(|cells|, i requires 0 <= i < |cells| => UnpackCell(cells[i], start + i))
  }

  /** The cells of the column `_pack`. */
  function Cells(t: ArrowTable): seq<Value> {
    seq(|t.rows|, i requires 0 <= i < |t.rows| => if PACK in t.rows[i] then t.rows[i][PACK] else Null)
  }

  function UnpackTask(cells: seq<Value>, task: Task): seq<Value>
    requires task.start + task.size <= |cells|
  {
    UnpackCells(cells[task.start..task.start + task.size], task.start)
  }

  function UnpackChunks(cells: seq<Value>, tasks: seq<Task>): seq<seq<Value>>
    requires Within(tasks, |cells|)
  {
    seq(|tasks|, k requires 0 <= k < |tasks| => UnpackTask(cells, tasks[k]))
  }

  predicate AllSpreadable(cells: seq<Value>) {
    forall i :: 0 <= i < |cells| ==> Spreadable(cells[i])
  }

  /** The slice holds nothing but lists of dicts. */
  predicate TaskSpreadable(cells: seq<Value>, task: Task)
    requires task.start + task.size <= |cells|
  {
    AllSpreadable(cells[task.start..task.start + task.size])
  }

  /** The slices before the first one that makes its worker raise. */
  function GoodTasks(cells: seq<Value>, tasks: seq<Task>): (good: seq<Task>)
    requires Within(tasks, |cells|)
    ensures |good| <= |tasks| && good == tasks[..|good|]
  {
    if tasks == [] || !TaskSpreadable(cells, tasks[0]) then []
    else
      assert Within(tasks[1..], |cells|);
      [tasks[0]] + GoodTasks(cells, tasks[1..])
  }

  /** A reader that cannot go on after these chunks, though more are to come, has met an empty one. */
  predicate EndsAtEmpty<T>(chunks: seq<seq<T>>, batchSize: nat) {
    var n := |Received(chunks, batchSize)|;
    n < |chunks| && n * batchSize == n && chunks[n] == []
  }

  /**
   * Reading back when one slice is missing for good: the workers never meet at the barrier, so the
   * reader ends at an empty chunk or waits for ever.
   */
  function UnpackStuck(t: ArrowTable, chunks: seq<seq<Value>>, batchSize: nat): Outcome {
    if !EndsAtEmpty(chunks, batchSize) then Waiting(t) else ReadSlices(t, chunks, batchSize, Schedule(|chunks|, false))
  }

  function UnpackOutcome(t: ArrowTable, batchSize: int, schedule: Schedule): Outcome {
    if PACK !in t.cols || |t.cols| != 1 || t.HasNull(PACK) then Outcome(Ok(false), t)
    else if t.rows == [] then Outcome(Raised, t)
    else
      var cells := Cells(t);
      if !(cells[0].List? && cells[0].items != [] && cells[0].items[0].Dict?) then Outcome(Ok(false), t)
      else if batchSize <= 0 then Outcome(Raised, t)
      else UnpackRead(t, cells, batchSize, schedule)
  }

  /** The slices of the packed cells, and what becomes of them at the reader. */
  function UnpackRead(t: ArrowTable, cells: seq<Value>, batchSize: nat, schedule: Schedule): Outcome
    requires 0 < batchSize
  {
    TasksWithin(0, |cells|, batchSize);
    var tasks := Tasks(0, |cells|, batchSize);
    var good := GoodTasks(cells, tasks);
    if |good| < |tasks| then UnpackStuck(t, UnpackChunks(cells, good), batchSize)
    else ReadSlices(t, UnpackChunks(cells, tasks), batchSize, schedule)
  }

  // ---- append and insert ----

  /** Where new rows go: into a packed table, under inferred or given group ids, or unmarked. */
  datatype AddMode =
    | ToPacked
    | Unmarked
    | SharedGroup(id: Value)
    | FreshGroups(first: int)

  /** The keyword arguments the row code is called with; the group id -1 stands for "no group". */
  datatype AddArgs = AddArgs(isPacked: bool, addNewGroup: bool, isGrouped: bool, groupId: Value)

  /** The arguments computed from the table: a given id, or the largest id, or whether it is packed. */
  function ArgsFor(t: ArrowTable, addNewGroup: bool, isGrouped: bool, groupId: int): AddArgs {
    if t.Grouped() then
      if groupId != -1 then AddArgs(false, true, isGrouped, Int(groupId - 1))
      else
        AddArgs(false, addNewGroup, isGrouped, match MaxId(t.rows) case Some(g) => Int(g) case None => Null)
    else AddArgs(t.Packed(), false, true, Int(-1))
  }

  /** What the row code makes of its arguments; counting up from a null id raises. */
  function ModeOf(args: AddArgs): Result<AddMode> {
    if args.isPacked then Ok(ToPacked)
    else
      match args.groupId
      case Int(base) => Ok(ModeFrom(base, args.addNewGroup, args.isGrouped))
      case id => if args.addNewGroup then Raised else Ok(SharedGroup(id))
  }

  function AddModeFor(t: ArrowTable, addNewGroup: bool, isGrouped: bool, groupId: int): Result<AddMode> {
    ModeOf(ArgsFor(t, addNewGroup, isGrouped, groupId))
  }

  function ModeFrom(base: int, addNewGroup: bool, isGrouped: bool): AddMode {
    if base == -1 then Unmarked
    else if !addNewGroup then SharedGroup(Int(base))
    else if isGrouped then SharedGroup(Int(base + 1))
    else FreshGroups(base + 1)
  }

  /** pc.max over the group column, which skips nulls. */
  function MaxId(rows: seq<Row>): Option<int> {
    if rows == [] then None
    else
      var n := |rows| - 1;
      var before := MaxId(rows[..n]);
      if GROUP !in rows[n] || !rows[n][GROUP].Int? then before
      else if before.Some? && before.value >= rows[n][GROUP].n then before
      else Some(rows[n][GROUP].n)
  }

  /** The row for the i-th new element. */
  function Marked(fields: Row, mode: AddMode, i: nat): Row {
    match mode
    case SharedGroup(id) => fields[GROUP := id]
    case FreshGroups(first) => fields[GROUP := Int(first + i)]
    case _ => fields
  }

  function NewRows(elems: seq<Value>, mode: AddMode): seq<Row>
    requires AllDicts(elems)
  {
    seq(|elems|, i requires 0 <= i < |elems| => Marked(elems[i].fields, mode, i))
  }

  /** The table of new rows made from what the caller passes in; a single dict cannot take a null id. */
  function NewTable(elem: Value, mode: AddMode): Result<ArrowTable> {
    match elem
    case List(items) =>
      if items == [] then Raised
      else if mode.ToPacked? then
        if items[0].Dict? then Ok(FromPacked([elem]))
        else if items[0].List? && items[0].items != [] && items[0].items[0].Dict? then Ok(FromPacked(items))
        else if items[0].Str? then Ok(FromPacked(items))
        else Raised
      else if AllDicts(items) then Ok(FromPyList(NewRows(items, mode)))
      else Raised
    case Dict(fields) =>
      if mode.ToPacked? then Ok(FromPacked([List([elem])]))
      else if mode.SharedGroup? && !mode.id.Int? then Raised
      else Ok(FromPyList([Marked(fields, mode, 0)]))
    case Str(_) => if mode.ToPacked? then Ok(FromPacked([elem])) else Raised
    case _ => Raised
  }

  function Appended(t: ArrowTable, elem: Value, addNewGroup: bool, isGrouped: bool): Result<ArrowTable> {
    match AddModeFor(t, addNewGroup, isGrouped, -1)
    case Raised => Raised
    case Ok(mode) =>
      match NewTable(elem, mode)
      case Raised => Raised
      case Ok(rows) => Ok(ConcatPromote(t, rows))
  }

  /** New rows put before position `index`; -1 as group id means "inferred from the table". */
  function Inserted(t: ArrowTable, elem: Value, index: int, groupId: int, addNewGroup: bool, isGrouped: bool)
    : Result<ArrowTable>
  {
    match AddModeFor(t, addNewGroup, isGrouped, groupId)
    case Raised => Raised
    case Ok(mode) =>
      if index < 0 || index > |t.rows| then Raised
      else
        match NewTable(elem, mode)
        case Raised => Raised
        case Ok(rows) =>
          Ok(ConcatPromote(ConcatPromote(ArrowTable(t.cols, t.rows[..index]), rows), ArrowTable(t.cols, t.rows[index..])))
  }
}
